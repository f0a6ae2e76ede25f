# jQuery UI build tasks: manifests, copies and theme paths

A Dafny model of the decision logic in jQuery UI's grunt build file
`build/tasks/build.js`:

- **`manifest` task.** For every plugin listed in a category's table (`core`, `widget`,
  `interaction`, `effect`), it merges three sources into one `<name>.jquery.json`
  package descriptor:
  - the category's defaults;
  - the plugin's own override record;
  - the package metadata.

  Doing so involves a capitalised display name, `{plugin}`/`{Plugin}` template
  substitution, field-by-field fallback with JavaScript `||`, an ordered keyword list
  and a dependency object.
- **`copy` task.** It decides, for each file:
  - its target path: `dest + "/"` and the file name, with a literal prefix stripped;
  - whether its text has every `@VERSION` replaced by the package version, which
    happens when the source name ends in `js` or `css`.
- **`generate_themes` task.** For each gallery theme it computes:
  - the folder, stylesheet, bundle and image paths, all under `themes/<folderName>/`;
  - the list of stylesheets concatenated into its bundle: the configured layers, with
    the last one replaced by the theme's stylesheet.

Modules:

- `JsString` (`js_string.dfy`): the JavaScript string primitives the tasks use.
  - `indexOf`.
  - `String.prototype.replace` with a string pattern, which replaces the first match only.
  - `replace` with a global literal regular expression, which replaces every match,
    scanning left to right.
  - The `$` patterns the replacement text may contain (the GetSubstitution
    operation of ECMA-262): `$$`, `$&`, `` $` `` and `$'`.
  - `Join`, which is `Array.prototype.join`. No modelled task calls it; it describes
    text built around a pattern in the statement of `ReplaceAllJoin`.
  - ASCII upper-casing.
- `JsObject` (`js_object.dfy`): a JavaScript object with string values as an
  insertion-ordered list of properties, plus the opaque JSON values copied from the
  package metadata.
- `Manifest` (`manifest.dfy`): the defaults table, override records, the descriptor
  record, the per-plugin transform and the whole task over the four categories.
- `CopyTask` (`copy_task.dfy`): target naming, the `(js|css)$` test, version
  replacement and the list of copies.
- `Themes` (`themes.dfy`): theme paths, the concat list, the files a theme writes, and
  a file system as a map from paths to contents.

Inputs the tasks read from disk, the network or the grunt configuration are
parameters of the model:

- the plugin tables;
- the package metadata;
- the file list;
- the strip prefix (after template expansion);
- the renames;
- the theme gallery with each theme's CSS text and image-fetch outcome;
- the configured CSS layer list.

Behaviour of `build.js` worth noting:

- Keywords are concatenated, not de-duplicated. They start with `"ui"` and the
  identifier; there is no category tag.
- If a category's table fails to load, the run stops there. The descriptors already
  written for earlier categories stay on disk, so a partial set remains. `Generate`
  records the failing category and exactly the files written before it.
- Extra fields of an override record are not passed through: the descriptor is built
  field by field.
- The theme run reports through `done(!err)` the first image-fetch error that
  `async.forEach` delivers. It does not collect a per-theme error list.
- Under grunt, `done(false)` fails the task. The `concat:css-*` tasks it queued then
  never run, so no theme gets a `jquery-ui.css` bundle once any image fetch fails. The
  model states the concat configuration and leaves the running of `concat` out.

## Model

| member | source | states |
|---|---|---|
| JsString.Capitalize | build/tasks/build.js:56 | the display name has the identifier's length, its first character upper-cased and every other character unchanged; the empty identifier gives the empty name |
| JsString.AsciiUpper | build/tasks/build.js:56 | a lower-case ASCII letter becomes the matching capital (32 code points lower); any other character is unchanged; the result is never lower-case |
| JsString.CapitalizeFacts | build/tasks/build.js:56 | capitalising is idempotent; the name equals the identifier exactly when the identifier is empty or does not start with a lower-case letter; characters other than letters are neither added nor lost |
| JsString.IndexOf | build/tasks/build.js:59 | `indexOf` finds a position exactly when the pattern occurs, and the position found is the leftmost occurrence |
| JsString.Expand | build/tasks/build.js:59 | a replacement text without `$` is inserted literally |
| JsString.ExpandPatterns | build/tasks/build.js:102 | in a replacement, `$&` inserts the matched text, `$$` a dollar sign, `` $` `` and `$'` the text before and after; `$1` stays literal because the pattern has no groups |
| JsString.ReplaceFirstSpec | build/tasks/build.js:59 | a string-pattern `replace` rewrites exactly the leftmost occurrence and keeps the text around it; without an occurrence the text is unchanged |
| JsString.ReplaceAll | build/tasks/build.js:102 | a global replace leaves text without the pattern unchanged |
| JsString.ReplaceFirst | build/tasks/build.js:59 | `replace` with a string pattern; computed only, its behaviour is stated by `JsString.ReplaceFirstSpec` |
| JsString.ReplaceAllInClean | build/tasks/build.js:102 | the global scan copies a stretch with no match unchanged when the next text is empty or a match, for a pattern whose first character does not recur in it |
| JsString.ReplaceAllJoin | build/tasks/build.js:102 | replacing every pattern in pieces joined by the pattern gives the pieces joined by the replacement, when no piece holds a match, the pattern's first character does not recur in it and the replacement has no `$` |
| JsObject.Get | build/tasks/build.js:91 | reading a property finds a value exactly when the key is present, and finds that key's value |
| JsObject.Put | build/tasks/build.js:91 | assigning an existing key changes its value in place; a new key is appended last; keys stay distinct |
| JsObject.PutGet | build/tasks/build.js:91 | after `o[k] = v`, `o[k]` reads `v` and every other key reads what it read before |
| JsObject.ToMap | build/tasks/build.js:81-92 | the object as a map has exactly the object's keys with their values |
| Manifest.AddDependencies | build/tasks/build.js:88-92 | after the dependency loop each `"ui." + d` maps to the version and every other key keeps its earlier value; a repeated name leaves one entry |
| Manifest.DefaultsOf | build/tasks/build.js:22-47 | the per-category defaults table; its substituted values are stated by `Manifest.DefaultNameValue`, `Manifest.DefaultTitleValue`, `Manifest.DefaultLinkValues` and `Manifest.CategoryKeys` |
| Manifest.Substitute | build/tasks/build.js:58-60 | the `replace` helper; computed only, its behaviour is stated by the `Manifest.Substitute…` lemmas below |
| Manifest.SubstituteNoToken | build/tasks/build.js:58-60 | a template holding neither `{plugin}` nor `{Plugin}` comes back unchanged, whatever the identifier |
| Manifest.SubstitutePluginToken | build/tasks/build.js:58-60 | `a{plugin}b` becomes `a` + identifier + `b`, for `a` and `b` without `{` and an identifier without `{` or `$` |
| Manifest.SubstituteNameToken | build/tasks/build.js:58-60 | `a{Plugin}b` becomes `a` + display name + `b`, for `a` and `b` without `{` and an identifier without `{` or `$` |
| Manifest.SubstituteFirstOnly | build/tasks/build.js:59 | only the first `{plugin}` is replaced: `{plugin}-{plugin}` becomes identifier + `-{plugin}`, for an identifier without `{` or `$` |
| Manifest.DefaultNameValue | build/tasks/build.js:63 | the category's default name is `ui.effect-<id>` for effects and `ui.<id>` otherwise, for an identifier without `{` or `$` |
| Manifest.DefaultTitleValue | build/tasks/build.js:64 | the default title is `jQuery UI <Name> Effect` for effects and `jQuery UI <Name>` otherwise, for an identifier without `{` or `$` |
| Manifest.DefaultLinkValues | build/tasks/build.js:74-79 | default homepage and demo are `http://jqueryui.com/<id>/` (or `<id>-effect/`), docs the same under `api.jqueryui.com`, for an identifier without `{` or `$` |
| Manifest.BuildManifest | build/tasks/build.js:62-92 | the descriptor of one plugin, built field by field; its fields are stated by `Manifest.ResolvedFields`, `Manifest.KeywordOrder` and `Manifest.DependencyMap` |
| Manifest.ResolvedFields | build/tasks/build.js:62-86 | each of name, title, homepage, demo, docs and category is the override when non-empty, else the substituted default; description and the package fields are copied; download is fixed |
| Manifest.Or | build/tasks/build.js:63-85 | the `||` fallback of a string field; computed only, its effect on each field is stated by `Manifest.ResolvedFields` |
| Manifest.NoTokenRemains | build/tasks/build.js:58-79 | with a plain identifier and overrides free of `{`, no template token is left in name, title or links |
| Manifest.KeywordOrder | build/tasks/build.js:66-68 | keywords are `["ui", id]` then the category's then the override's, so the length is 2 + both list lengths |
| Manifest.KeywordsKeepDuplicates | build/tasks/build.js:66-68 | a repeated keyword is kept: the effect `effect` with keyword `effect` lists it three times |
| Manifest.DependencyKeysPrefixed | build/tasks/build.js:91 | every added dependency key starts with `ui.`, so none is `jquery` |
| Manifest.DependencyLookup | build/tasks/build.js:81-92 | the dependency object starts with `jquery: >=1.6`, maps each added key to the version and has no other key |
| Manifest.DependencyAsMap | build/tasks/build.js:81-92 | as a map the dependency object equals the floor plus every prefixed name at the version |
| Manifest.DependencyObject | build/tasks/build.js:81-92 | the dependency object has distinct keys, `jquery` first at `>=1.6`, exactly the prefixed names besides, each at the version |
| Manifest.DependencyMap | build/tasks/build.js:81-92 | every category and override dependency `d` appears as `ui.d`, every key other than `jquery` maps to the package version |
| Manifest.CategoryKeys | build/tasks/build.js:31-45 | the keys each category's dependency list adds |
| Manifest.CategoryDependencies | build/tasks/build.js:88-92 | without override dependencies (none given, or an empty list) a descriptor depends on the category's dependencies only, all at the package version |
| Manifest.EffectDescriptor | build/tasks/build.js:62-92 | an effect with an empty override record gives the whole descriptor, field by field, for an identifier without `{` or `$` |
| Manifest.BounceEffect | build/tasks/build.js:38-46 | the `bounce` effect is `ui.effect-bounce` in `ui.effect-bounce.jquery.json`, titled `jQuery UI Bounce Effect`, with the expected keywords, links and dependencies |
| Manifest.Entry | build/tasks/build.js:53-95 | one plugin's file; computed only, its name and contents are stated by `Manifest.DistinctFileNames`, `Manifest.BounceEffect` and `Manifest.CategoryFilesContents` |
| Manifest.CategoryFiles | build/tasks/build.js:53-96 | a category writes exactly one file per plugin of its table; which file holds which descriptor is stated by `Manifest.CategoryFilesContents` |
| Manifest.CategoryFilesContents | build/tasks/build.js:53-96 | a category writes one file per plugin, in table order, the `i`-th holding the `i`-th plugin's descriptor |
| Manifest.FirstMissingIndex | build/tasks/build.js:49-51 | the position of the first category whose table did not load: every category before it loaded |
| Manifest.Generate | build/tasks/build.js:49-97 | the run stops at the first category whose table is missing and reports it; the files written are exactly those of the categories before it, in order |
| Manifest.GenerateOutcome | build/tasks/build.js:49-97 | the run fails exactly when some table is missing; a complete run writes one file per plugin of every category |
| Manifest.ManifestTask | build/tasks/build.js:49-97 | the task over `core`, `widget`, `interaction` and `effect` completes exactly when all four tables load, and then writes as many files as the four tables list plugins |
| Manifest.PartialRunKeepsEarlierFiles | build/tasks/build.js:49-51 | a missing `widget` table fails the run after the `core` descriptors were written |
| Manifest.DistinctFileNames | build/tasks/build.js:94 | distinct plain identifiers without a name override get distinct file names within a category |
| CopyTask.ReplaceVersion | build/tasks/build.js:101-103 | text without `@VERSION` is unchanged |
| CopyTask.ReplaceVersionJoin | build/tasks/build.js:101-103 | every `@VERSION` is replaced by the version and nothing else changes, whatever other `@` the text holds (`@import`, `@media`), for a version without `$` |
| CopyTask.CopyFile | build/tasks/build.js:104-112 | one copy job; computed only, which files it rewrites is stated by `CopyTask.ProcessedExactly` and `CopyTask.ProcessedNames`, what it writes by `CopyTask.CopiedText` |
| CopyTask.ProcessedExactly | build/tasks/build.js:105 | a file is rewritten exactly when its name is some stem followed by `js` or `css`, with or without a dot before them |
| CopyTask.ProcessedNames | build/tasks/build.js:105 | `.js` and `.css` files are processed, and so are names like `file.cjs` and `scss` that merely end in those letters; `.map` and `.md` files are not |
| CopyTask.CopiedText | build/tasks/build.js:104-112 | unprocessed files and files without `@VERSION` are copied unchanged |
| CopyTask.TargetName | build/tasks/build.js:118-122 | a name carrying the strip prefix loses exactly that prefix; any other name, or no strip, keeps the name |
| CopyTask.StripRoundTrip | build/tasks/build.js:118-122 | stripping `p` from `p + n` gives `n` |
| CopyTask.TargetNameInjective | build/tasks/build.js:118-122 | distinct names that both carry, or both lack, the prefix get distinct targets |
| CopyTask.StripCanCollide | build/tasks/build.js:118-122 | `a/x.js` stripped of `a/` and `x.js` get the same target |
| CopyTask.CopyJobs | build/tasks/build.js:113-129 | the copies are the listed files under their stripped names, then the renames under their new names, all under `dest/` |
| CopyTask.JobTargets | build/tasks/build.js:114-128 | every copy lands under `dest/`, and putting the prefix back after `dest/` recovers a stripped file's original path |
| Themes.ConcatList | build/tasks/build.js:207-213 | the bundle's layers are the configured ones with the last replaced by the theme's stylesheet: same length for a non-empty list, earlier layers unchanged |
| Themes.ThemeConcat | build/tasks/build.js:203-217 | the concat job is named `css-` + folder; its sources are the configured layers with the theme's stylesheet last; its destination lies in the theme's folder and is not the stylesheet |
| Themes.ConcatJobsSeparate | build/tasks/build.js:203-217 | two themes register concat jobs with different names and destinations, and a theme's bundle is no file either theme writes directly, for distinct folder names that are single path segments (`FolderName`) |
| Themes.BundleNotOwnWrite | build/tasks/build.js:209-226 | a theme's bundle is neither its stylesheet nor any of its images |
| Themes.ImageWrites | build/tasks/build.js:225-227 | each fetched image is written under `<folder>/images/` with its data, in order |
| Themes.ThemeWrites | build/tasks/build.js:209-227 | a theme writes its stylesheet first, then one file per fetched image and none when the fetch failed; every path lies in the theme's folder |
| Themes.BundleFile | build/tasks/build.js:216 | the bundle path, `<folder>/jquery-ui.css`; computed only, its separation from other files is stated by `Themes.OwnFilesDistinct` and `Themes.ThemesDisjoint` |
| Themes.ImageFile | build/tasks/build.js:226 | an image path, `<folder>/images/<path>`; computed only, stated by `Themes.OwnFilesDistinct` and `Themes.ThemesDisjoint` |
| Themes.CssFile | build/tasks/build.js:206 | the stylesheet path, `<folder>/jquery.ui.theme.css`; computed only, its separation from other files is stated by `Themes.OwnFilesDistinct` and `Themes.ThemesDisjoint`, its final contents by `Themes.StylesheetsSurvive` |
| Themes.FoldersSeparate | build/tasks/build.js:205 | paths under two different slash-free folder names differ, whatever follows |
| Themes.ThemesDisjoint | build/tasks/build.js:205-226 | two themes whose distinct folder names are single path segments write no common path, have distinct bundles and concat targets, and neither's bundle is a file the other writes |
| Themes.OwnFilesDistinct | build/tasks/build.js:206-226 | within one theme the stylesheet, the bundle and every image path differ |
| Themes.SlashCollides | build/tasks/build.js:205-226 | with a `/` in a folder name, the bundle of theme `a/images` is an image path of theme `a` |
| Themes.ApplyCommutes | build/tasks/build.js:201-229 | write lists touching disjoint paths give the same files in either order |
| Themes.CompletionOrderIrrelevant | build/tasks/build.js:201-229 | two themes leave the same files whichever finishes first, for distinct folder names that are single path segments (`FolderName`) |
| Themes.StylesheetsSurvive | build/tasks/build.js:201-229 | after all themes run one after the other, each theme's stylesheet holds its own CSS text, including themes whose image fetch failed, for folder names that are distinct single path segments (`FolderName`) |
| Themes.AllWrites | build/tasks/build.js:201-229 | the writes of every theme, one theme after the other; computed only, stated by `Themes.StylesheetsSurvive` and, for two themes, `Themes.CompletionOrderIrrelevant` and `Themes.ScheduleIrrelevant` |
| Themes.ScheduleIrrelevant | build/tasks/build.js:201-227 | for two themes, writing both stylesheets first and then the image batches in either order leaves the same files as running the themes one after the other, for distinct folder names that are single path segments (`FolderName`) |

## Left out

- File I/O (`grunt.file.readJSON`, `write`, `copy`, `expandFiles`): inputs and outputs
  are values. A table that fails to load is a category missing from the table map.
- The `JSON.stringify` layout of a written descriptor and its trailing newline. The
  model stops at the descriptor record and its file name.
- JSON values other than strings in override fields. A non-string `name` or a
  non-array `keywords` would be handled by JavaScript's dynamic typing. Override
  fields are `Option<string>` or `Option<seq<string>>`.
- A `null` plugin record. `data.name` then throws at build.js:63 and ends the run
  partway through a category. An `Override` is always a record, so the model has no
  such failure.
- JSON numbers in the copied package fields are integers in the model. The
  descriptors copy these values without reading them.
- The order `Object.keys` gives integer-like keys. Plugin tables and renames are
  sequences in the order listed.
- Unicode `toUpperCase`. Capitalisation is ASCII only: a non-ASCII first letter is
  left unchanged.
- `grunt.template.process`, which expands the strip prefix and rename targets. The
  model takes the expanded strings.
- A `strip` given as a regular-expression object rather than a string. The string
  form is escaped into an anchored literal, so it is a plain prefix test.
- The log lines ("Copied N files.", "Renamed N files.").
- The `zip`, `md5` and `clean` tasks. They wrap an external process, hashing and
  directory removal, with no decision logic.
- The start of `generate_themes`: the install check, the copy of release files into
  the download builder, rewriting its `config.json`, and copying the base theme
  (lines 173-198). These are external-module setup and file copies.
- The `concat` task that writes a theme's bundle. The model states the concat
  configuration, not the concatenated text.
- The asynchronous fan-out of `grunt.util.async.forEach` and the task's final
  `done(!err)`. The model covers the files each theme writes and shows that distinct
  themes' writes commute. It does not model the scheduler, beyond the two-theme
  interleavings of `Themes.ScheduleIrrelevant`, nor the reported error.
- Themes.ThemesDisjoint: requires folder names that are single path segments: not
  empty, not `.` or `..`, and without `/`. `Themes.SlashCollides` shows a collision
  with a `/`. With `""` or `.`, `themes//x` and `themes/./x` differ as strings but name
  the same file, and `..` leaves the `themes` folder.
- Paths are compared as strings, not resolved as file-system paths. The `FolderName`
  requirement of `Themes.ThemesDisjoint`, `Themes.ConcatJobsSeparate`,
  `Themes.CompletionOrderIrrelevant`, `Themes.ScheduleIrrelevant` and
  `Themes.StylesheetsSurvive` excludes the folder names for which the two differ.
- Themes.ConcatJobsSeparate: requires distinct `FolderName` folders, as
  `Themes.ThemesDisjoint` does. Folders `a/images` and `a` with an image
  `jquery-ui.css` in `a` make one theme's image the other's bundle.
- Themes.ScheduleIrrelevant: requires distinct `FolderName` folders. Two themes sharing
  a folder and an image path end with whichever image was written last, so the order
  matters.
- Image paths are not restricted. One with `..` segments, such as
  `../../b/jquery.ui.theme.css`, names another theme's file on disk while differing
  from it as a string. The collision lemmas hold for path strings only.
- The schedule of more than two themes. `Themes.ScheduleIrrelevant` covers the
  stylesheets-first interleaving for two themes; `Themes.StylesheetsSurvive` covers any
  number of themes run one after the other.
- Manifest.ResolvedFields: states the substituted defaults only for identifiers
  without `{` or `$`; so do `Manifest.SubstituteNameToken`,
  `Manifest.SubstituteFirstOnly`, `Manifest.DefaultNameValue`,
  `Manifest.DefaultTitleValue`, `Manifest.DefaultLinkValues` and
  `Manifest.EffectDescriptor`. With such an identifier, `$` patterns and leftover tokens change
  the text. Those cases are covered by the general `ReplaceFirstSpec` lemma, not by a
  closed form.
- CopyTask.ReplaceVersionJoin: requires a version without `$`. With one, each
  replacement expands `$&`, `$$`, `` $` `` and `$'` per match, so `$&` inserts
  `@VERSION` itself and `` $` `` the text before that match. `JsString.Expand` and
  `JsString.ExpandPatterns` state these expansions; the whole result is not given in
  closed form.
