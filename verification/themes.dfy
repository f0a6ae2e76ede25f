/**
  The per-theme part of `generate_themes`: where a gallery theme's stylesheet, bundle
  and images are written, and the list of stylesheets concatenated into its bundle.
 */
module Themes {
  import opened JsString

  const ThemeCss := "jquery.ui.theme.css"
  const Bundle := "jquery-ui.css"
  const ImagesDir := "images/"

  /** `target + "themes/" + folderName + "/"`. */
  function ThemeFolder(target: string, folder: string): string {
    target + "themes/" + folder + "/"
  }

  /** The theme's stylesheet, `cssFolderName + "jquery.ui.theme.css"`. */
  function CssFile(target: string, folder: string): string {
    ThemeFolder(target, folder) + ThemeCss
  }

  function BundleFile(target: string, folder: string): string {
    ThemeFolder(target, folder) + Bundle
  }

  function ImageFile(target: string, folder: string, path: string): string {
    ThemeFolder(target, folder) + ImagesDir + path
  }

  /**
    A folder name that is one path segment: not empty, not `.` or `..`, and without
    `/`. Paths are compared as strings; under such names two strings that differ also
    name different files.
   */
  predicate FolderName(f: string) {
    f != "" && f != "." && f != ".." && '/' !in f
  }

  /** The name of the concat target the theme registers. */
  function ConcatTarget(folder: string): string {
    "css-" + folder
  }

  /**
    `cssFiles.splice(-1); cssFiles.push(cssFile)`: the last configured layer gives way
    to the theme's stylesheet; on an empty list `splice(-1)` removes nothing.
   */
  function ConcatList(layers: seq<string>, cssFile: string): (r: seq<string>)
    ensures |r| == if |layers| == 0 then 1 else |layers|
    ensures r[|r| - 1] == cssFile
    ensures forall i :: 0 <= i < |r| - 1 ==> r[i] == layers[i]
  {
    if |layers| == 0 then [cssFile] else layers[..|layers| - 1] + [cssFile]
  }

  /** The concat configuration a theme registers: its sources and its destination. */
  datatype ConcatJob = ConcatJob(name: string, src: seq<string>, dest: string)

  /** A file the theme run writes, with its content. */
  datatype Write = Write(path: string, data: string)

  /** An image `theme.fetchImages` delivers. */
  datatype Image = Image(path: string, data: string)

  /** One gallery theme: its folder name, its stylesheet text and the outcome of fetching its images. */
  datatype Theme = Theme(folder: string, css: string, images: Option<seq<Image>>)

  /**
    The bundle's concat job: named after the folder, the configured layers with the
    theme's stylesheet last, written into the theme's folder next to (not over) the
    stylesheet.
   */
  function ThemeConcat(target: string, layers: seq<string>, folder: string): (r: ConcatJob)
    ensures StartsWith(r.name, "css-") && r.name[4..] == folder
    ensures |r.src| == (if |layers| == 0 then 1 else |layers|)
    ensures r.src[|r.src| - 1] == CssFile(target, folder)
    ensures forall i :: 0 <= i < |r.src| - 1 ==> r.src[i] == layers[i]
    ensures StartsWith(r.dest, ThemeFolder(target, folder)) && r.dest != CssFile(target, folder)
  {
    OwnFilesDistinct(target, folder, "");
    assert BundleFile(target, folder)[..|ThemeFolder(target, folder)|] == ThemeFolder(target, folder);
    assert ConcatTarget(folder)[..4] == "css-";
    ConcatJob(ConcatTarget(folder), ConcatList(layers, CssFile(target, folder)), BundleFile(target, folder))
  }

  /** The image writes, in the order the fetched list gives them. */
  function ImageWrites(target: string, folder: string, images: seq<Image>): (r: seq<Write>)
    ensures |r| == |images|
    ensures forall i :: 0 <= i < |r| ==> r[i] == Write(ImageFile(target, folder, images[i].path), images[i].data)
    ensures forall i :: 0 <= i < |r| ==> StartsWith(r[i].path, ThemeFolder(target, folder) + ImagesDir)
  {
    if |images| == 0 then [] else [Write(ImageFile(target, folder, images[0].path), images[0].data)] + ImageWrites(target, folder, images[1..])
  }

  /**
    The files a theme writes directly: its stylesheet, then its images unless fetching
    them failed. (The bundle is written by the concat task the theme registers.)
   */
  function ThemeWrites(target: string, t: Theme): (r: seq<Write>)
    ensures 0 < |r| && r[0] == Write(CssFile(target, t.folder), t.css)
    ensures |r| == 1 + |t.images.GetOr([])|
    ensures t.images.Some? ==> r[1..] == ImageWrites(target, t.folder, t.images.value)
    ensures forall i :: 0 <= i < |r| ==> StartsWith(r[i].path, ThemeFolder(target, t.folder))
  {
    [Write(CssFile(target, t.folder), t.css)] + match t.images
      case None => []
      case Some(images) => ImageWrites(target, t.folder, images)
  }

  /** A file system as a map from paths to contents; writing replaces. */
  type Files = map<string, string>

  function Apply(fs: Files, writes: seq<Write>): (r: Files)
    ensures forall w :: w in writes ==> w.path in r
    ensures forall p :: p in fs ==> p in r
    ensures forall p :: p !in fs && (forall i :: 0 <= i < |writes| ==> writes[i].path != p) ==> p !in r
    decreases |writes|
  {
    if |writes| == 0 then fs else Apply(fs[writes[0].path := writes[0].data], writes[1..])
  }

  /** No write in the list is to `p`. */
  predicate Untouched(writes: seq<Write>, p: string) {
    forall i :: 0 <= i < |writes| ==> writes[i].path != p
  }

  /** A path no write touches keeps its content. */
  lemma {:induction false} ApplyUntouched(fs: Files, writes: seq<Write>, p: string)
    requires Untouched(writes, p)
    ensures p in Apply(fs, writes) <==> p in fs
    ensures p in fs ==> Apply(fs, writes)[p] == fs[p]
    decreases |writes|
  {
    if |writes| > 0 {
      assert writes[0].path != p;
      assert Untouched(writes[1..], p) by {
        forall i | 0 <= i < |writes[1..]| ensures writes[1..][i].path != p {
          assert writes[1..][i] == writes[i + 1];
        }
      }
      ApplyUntouched(fs[writes[0].path := writes[0].data], writes[1..], p);
    }
  }

  /** The last write to a path decides its content. */
  lemma {:induction false} ApplyLast(fs: Files, writes: seq<Write>, i: nat)
    requires i < |writes|
    requires forall j :: i < j < |writes| ==> writes[j].path != writes[i].path
    ensures Apply(fs, writes)[writes[i].path] == writes[i].data
    decreases |writes|
  {
    if i == 0 {
      var fs' := fs[writes[0].path := writes[0].data];
      assert Untouched(writes[1..], writes[0].path) by {
        forall j | 0 <= j < |writes[1..]| ensures writes[1..][j].path != writes[0].path {
          assert writes[1..][j] == writes[j + 1];
        }
      }
      ApplyUntouched(fs', writes[1..], writes[0].path);
    } else {
      assert writes[i] == writes[1..][i - 1];
      ApplyLast(fs[writes[0].path := writes[0].data], writes[1..], i - 1);
    }
  }

  /**
    Two write lists that touch disjoint paths can be applied in either order, so the
    order in which themes finish does not change the files.
   */
  lemma {:induction false} ApplyCommutes(fs: Files, a: seq<Write>, b: seq<Write>)
    requires forall i, j :: 0 <= i < |a| && 0 <= j < |b| ==> a[i].path != b[j].path
    ensures Apply(Apply(fs, a), b) == Apply(Apply(fs, b), a)
    decreases |a|
  {
    if |a| > 0 {
      var w := a[0];
      assert Untouched(b, w.path);
      var fsw := fs[w.path := w.data];
      ApplyCommutes(fsw, a[1..], b);
      // Apply(Apply(fsw, b), a[1..]) == Apply(Apply(fsw, a[1..]), b)
      assert Apply(fs, a) == Apply(fsw, a[1..]);
      ApplyWriteFirst(fs, w, b);
      assert Apply(Apply(fs, b), a) == Apply(Apply(fs, b)[w.path := w.data], a[1..]);
    }
  }

  /** A write to a path the list never touches can happen before or after it. */
  lemma {:induction false} ApplyWriteFirst(fs: Files, w: Write, b: seq<Write>)
    requires Untouched(b, w.path)
    ensures Apply(fs[w.path := w.data], b) == Apply(fs, b)[w.path := w.data]
    decreases |b|
  {
    if |b| > 0 {
      assert b[0].path != w.path;
      assert Untouched(b[1..], w.path) by {
        forall i | 0 <= i < |b[1..]| ensures b[1..][i].path != w.path {
          assert b[1..][i] == b[i + 1];
        }
      }
      assert fs[w.path := w.data][b[0].path := b[0].data] == fs[b[0].path := b[0].data][w.path := w.data];
      ApplyWriteFirst(fs[b[0].path := b[0].data], w, b[1..]);
    }
  }

  /**
    Two gallery themes with distinct folder names that are path segments leave the
    same files whichever of them finishes first.
   */
  lemma CompletionOrderIrrelevant(fs: Files, target: string, s: Theme, t: Theme)
    requires s.folder != t.folder && FolderName(s.folder) && FolderName(t.folder)
    ensures Apply(Apply(fs, ThemeWrites(target, s)), ThemeWrites(target, t))
         == Apply(Apply(fs, ThemeWrites(target, t)), ThemeWrites(target, s))
  {
    ThemesDisjoint(target, s, t);
    ApplyCommutes(fs, ThemeWrites(target, s), ThemeWrites(target, t));
  }

  /**
    The schedule the run follows for two themes when `fetchImages` answers
    asynchronously: both stylesheets are written first, since every iterator starts at
    once, and the two image batches arrive later in either order. (A synchronous answer
    gives the one-theme-after-another order of `AllWrites`.) Either way the files are those of running the themes one after
    the other.
   */
  lemma ScheduleIrrelevant(fs: Files, target: string, s: Theme, t: Theme)
    requires s.folder != t.folder && FolderName(s.folder) && FolderName(t.folder)
    ensures var ws, wt := ThemeWrites(target, s), ThemeWrites(target, t);
      var sequential := Apply(Apply(fs, ws), wt);
      && Apply(Apply(Apply(Apply(fs, ws[..1]), wt[..1]), ws[1..]), wt[1..]) == sequential
      && Apply(Apply(Apply(Apply(fs, ws[..1]), wt[..1]), wt[1..]), ws[1..]) == sequential
  {
    var ws, wt := ThemeWrites(target, s), ThemeWrites(target, t);
    ThemesDisjoint(target, s, t);
    var css, ims, cst, imt := ws[..1], ws[1..], wt[..1], wt[1..];
    assert ws == css + ims && wt == cst + imt;
    assert forall i, j :: 0 <= i < |cst| && 0 <= j < |ims| ==> cst[i].path != ims[j].path by {
      forall i, j | 0 <= i < |cst| && 0 <= j < |ims| ensures cst[i].path != ims[j].path {
        assert cst[i] == wt[i] && ims[j] == ws[j + 1];
      }
    }
    assert forall i, j :: 0 <= i < |wt| && 0 <= j < |ims| ==> wt[i].path != ims[j].path by {
      forall i, j | 0 <= i < |wt| && 0 <= j < |ims| ensures wt[i].path != ims[j].path {
        assert ims[j] == ws[j + 1];
      }
    }
    var x := Apply(fs, css);
    ApplyConcat(fs, css, ims);
    ApplyConcat(x, cst, imt);
    ApplyCommutes(x, cst, ims);
    assert Apply(Apply(Apply(x, cst), ims), imt) == Apply(Apply(fs, ws), wt) by {
      ApplyConcat(Apply(x, ims), cst, imt);
    }
    ApplyCommutes(x, wt, ims);
  }

  /**
    Two folders without `/` that differ give paths that differ, whatever follows each
    folder: the folder names are compared up to the first `/`.
   */
  lemma FoldersSeparate(target: string, f: string, g: string, x: string, y: string)
    requires f != g && '/' !in f && '/' !in g
    ensures ThemeFolder(target, f) + x != ThemeFolder(target, g) + y
  {
    var pre := target + "themes/";
    var s := ThemeFolder(target, f) + x;
    var t := ThemeFolder(target, g) + y;
    assert s == pre + (f + "/" + x);
    assert t == pre + (g + "/" + y);
    var u := f + "/" + x;
    var v := g + "/" + y;
    if |f| <= |g| {
      if f == g[..|f|] {
        assert |f| < |g|;
        assert u[|f|] == '/' && v[|f|] == g[|f|];
        assert g[|f|] in g;
        assert u != v;
      } else {
        var k :| 0 <= k < |f| && f[k] != g[k];
        assert u[k] == f[k] && v[k] == g[k];
      }
    } else {
      if g == f[..|g|] {
        assert u[|g|] == f[|g|] && v[|g|] == '/';
        assert f[|g|] in f;
      } else {
        var k :| 0 <= k < |g| && f[k] != g[k];
        assert u[k] == f[k] && v[k] == g[k];
      }
    }
    assert s[|pre|..] == u && t[|pre|..] == v;
  }

  /**
    Every file two distinct themes write lies in its own folder, so the themes never
    collide: not in their direct writes, not in their bundles, and no bundle is a file
    the other theme writes.
   */
  lemma ThemesDisjoint(target: string, s: Theme, t: Theme)
    requires s.folder != t.folder && FolderName(s.folder) && FolderName(t.folder)
    ensures forall i, j :: 0 <= i < |ThemeWrites(target, s)| && 0 <= j < |ThemeWrites(target, t)| ==>
      ThemeWrites(target, s)[i].path != ThemeWrites(target, t)[j].path
    ensures BundleFile(target, s.folder) != BundleFile(target, t.folder)
    ensures forall j :: 0 <= j < |ThemeWrites(target, t)| ==> ThemeWrites(target, t)[j].path != BundleFile(target, s.folder)
    ensures forall i :: 0 <= i < |ThemeWrites(target, s)| ==> ThemeWrites(target, s)[i].path != BundleFile(target, t.folder)
    ensures ConcatTarget(s.folder) != ConcatTarget(t.folder)
  {
    var ws, wt := ThemeWrites(target, s), ThemeWrites(target, t);
    forall i, j | 0 <= i < |ws| && 0 <= j < |wt| ensures ws[i].path != wt[j].path {
      var x := InFolder(target, s, i);
      var y := InFolder(target, t, j);
      FoldersSeparate(target, s.folder, t.folder, x, y);
    }
    forall j | 0 <= j < |wt| ensures wt[j].path != BundleFile(target, s.folder) {
      var y := InFolder(target, t, j);
      FoldersSeparate(target, t.folder, s.folder, y, Bundle);
    }
    forall i | 0 <= i < |ws| ensures ws[i].path != BundleFile(target, t.folder) {
      var x := InFolder(target, s, i);
      FoldersSeparate(target, s.folder, t.folder, x, Bundle);
    }
    FoldersSeparate(target, s.folder, t.folder, Bundle, Bundle);
    assert ConcatTarget(s.folder)[4..] == s.folder;
    assert ConcatTarget(t.folder)[4..] == t.folder;
  }

  /**
    The concat jobs of two distinct themes have different names and destinations, and
    neither theme's bundle is a file that either theme writes directly.
   */
  lemma ConcatJobsSeparate(target: string, layers: seq<string>, s: Theme, t: Theme)
    requires s.folder != t.folder && FolderName(s.folder) && FolderName(t.folder)
    ensures ThemeConcat(target, layers, s.folder).name != ThemeConcat(target, layers, t.folder).name
    ensures ThemeConcat(target, layers, s.folder).dest != ThemeConcat(target, layers, t.folder).dest
    ensures forall w :: w in ThemeWrites(target, s) + ThemeWrites(target, t) ==>
      w.path != ThemeConcat(target, layers, s.folder).dest
  {
    var js, jt := ThemeConcat(target, layers, s.folder), ThemeConcat(target, layers, t.folder);
    assert js.dest == BundleFile(target, s.folder) && jt.dest == BundleFile(target, t.folder);
    ThemesDisjoint(target, s, t);
    BundleNotOwnWrite(target, s);
  }

  /** A theme's bundle is none of the files the theme writes directly. */
  lemma BundleNotOwnWrite(target: string, t: Theme)
    ensures forall w :: w in ThemeWrites(target, t) ==> w.path != BundleFile(target, t.folder)
  {
    var ws := ThemeWrites(target, t);
    forall w | w in ws ensures w.path != BundleFile(target, t.folder) {
      var i :| 0 <= i < |ws| && ws[i] == w;
      if i == 0 {
        OwnFilesDistinct(target, t.folder, "");
      } else {
        var images := t.images.value;
        assert ws[i] == ImageWrites(target, t.folder, images)[i - 1];
        OwnFilesDistinct(target, t.folder, images[i - 1].path);
      }
    }
  }

  /** Each write of a theme is to its folder followed by some rest. */
  lemma InFolder(target: string, t: Theme, i: int) returns (rest: string)
    requires 0 <= i < |ThemeWrites(target, t)|
    ensures ThemeWrites(target, t)[i].path == ThemeFolder(target, t.folder) + rest
  {
    var w := ThemeWrites(target, t);
    if i == 0 {
      rest := ThemeCss;
    } else {
      var images := t.images.value;
      var iw := ImageWrites(target, t.folder, images);
      assert w[1..] == iw;
      assert w[i] == iw[i - 1];
      rest := ImagesDir + images[i - 1].path;
      assert ImageFile(target, t.folder, images[i - 1].path) == ThemeFolder(target, t.folder) + rest;
    }
  }

  /** Within one theme the stylesheet, the bundle and every image have different paths. */
  lemma OwnFilesDistinct(target: string, folder: string, path: string)
    ensures CssFile(target, folder) != BundleFile(target, folder)
    ensures ImageFile(target, folder, path) != CssFile(target, folder)
    ensures ImageFile(target, folder, path) != BundleFile(target, folder)
  {
    var d := ThemeFolder(target, folder);
    var n := |d|;
    assert CssFile(target, folder)[n] == 'j' && BundleFile(target, folder)[n] == 'j';
    assert CssFile(target, folder)[n + 6] == '.' && BundleFile(target, folder)[n + 6] == '-';
    assert ImageFile(target, folder, path)[n] == 'i';
  }

  /** With a `/` in a folder name the bundle of one theme can be an image of another. */
  lemma SlashCollides(target: string)
    ensures BundleFile(target, "a/images") == ImageFile(target, "a", Bundle)
  {
    assert target + "themes/" + "a/images" + "/" + Bundle == target + "themes/" + "a" + "/" + ImagesDir + Bundle;
  }

  /**
    After all themes have run one after the other, each theme's stylesheet holds its
    own text, when folder names are distinct path segments. `ScheduleIrrelevant` shows
    for two themes that the interleaving the run actually follows ends the same way.
   */
  lemma {:induction false} StylesheetsSurvive(fs: Files, target: string, themes: seq<Theme>, k: nat)
    requires k < |themes|
    requires Gallery(themes)
    ensures var m := Apply(fs, AllWrites(target, themes));
      CssFile(target, themes[k].folder) in m && m[CssFile(target, themes[k].folder)] == themes[k].css
    decreases |themes|
  {
    var first := ThemeWrites(target, themes[0]);
    var tail := themes[1..];
    var rest := AllWrites(target, tail);
    ApplyConcat(fs, first, rest);
    GalleryTail(themes);
    if k == 0 {
      AllWritesOutside(target, tail, themes[0]);
      FirstStylesheet(fs, target, themes[0], rest);
    } else {
      assert themes[k] == tail[k - 1];
      StylesheetsSurvive(Apply(fs, first), target, tail, k - 1);
    }
  }

  /** The gallery's folder names are distinct single path segments. */
  predicate Gallery(themes: seq<Theme>) {
    && (forall i :: 0 <= i < |themes| ==> FolderName(themes[i].folder))
    && (forall i, j :: 0 <= i < j < |themes| ==> themes[i].folder != themes[j].folder)
  }

  /** Dropping the first theme leaves a gallery none of whose folders is the first one's. */
  lemma GalleryTail(themes: seq<Theme>)
    requires 0 < |themes| && Gallery(themes)
    ensures Gallery(themes[1..]) && FolderName(themes[0].folder)
    ensures forall i :: 0 <= i < |themes[1..]| ==> themes[1..][i].folder != themes[0].folder
  {
    var tail := themes[1..];
    assert forall i :: 0 <= i < |tail| ==> tail[i] == themes[i + 1];
  }

  /** A theme's stylesheet survives writes that never touch it. */
  lemma FirstStylesheet(fs: Files, target: string, t: Theme, rest: seq<Write>)
    requires Untouched(rest, CssFile(target, t.folder))
    ensures var m := Apply(Apply(fs, ThemeWrites(target, t)), rest);
      CssFile(target, t.folder) in m && m[CssFile(target, t.folder)] == t.css
  {
    ThemeCssOnce(target, t);
    ApplyLast(fs, ThemeWrites(target, t), 0);
    ApplyUntouched(Apply(fs, ThemeWrites(target, t)), rest, CssFile(target, t.folder));
  }

  /** A theme's stylesheet is written once among its own writes. */
  lemma ThemeCssOnce(target: string, t: Theme)
    ensures forall j :: 0 < j < |ThemeWrites(target, t)| ==> ThemeWrites(target, t)[j].path != CssFile(target, t.folder)
  {
    var w := ThemeWrites(target, t);
    forall j | 0 < j < |w| ensures w[j].path != CssFile(target, t.folder) {
      var images := t.images.value;
      assert w[j] == ImageWrites(target, t.folder, images)[j - 1];
      OwnFilesDistinct(target, t.folder, images[j - 1].path);
    }
  }

  /** No theme in the list writes the stylesheet of a theme whose folder is not among theirs. */
  lemma {:induction false} AllWritesOutside(target: string, themes: seq<Theme>, t: Theme)
    requires FolderName(t.folder)
    requires forall i :: 0 <= i < |themes| ==> FolderName(themes[i].folder) && themes[i].folder != t.folder
    ensures Untouched(AllWrites(target, themes), CssFile(target, t.folder))
    decreases |themes|
  {
    if |themes| > 0 {
      var first := ThemeWrites(target, themes[0]);
      var rest := AllWrites(target, themes[1..]);
      AllWritesOutside(target, themes[1..], t);
      ThemesDisjoint(target, themes[0], t);
      var p := CssFile(target, t.folder);
      assert ThemeWrites(target, t)[0].path == p;
      var all: seq<Write> := first + rest;
      forall i | 0 <= i < |all| ensures all[i].path != p {
        if i < |first| {
          assert all[i] == first[i];
        } else {
          assert all[i] == rest[i - |first|];
        }
      }
    }
  }

  /** Applying two lists in sequence is applying their concatenation. */
  lemma {:induction false} ApplyConcat(fs: Files, a: seq<Write>, b: seq<Write>)
    ensures Apply(fs, a + b) == Apply(Apply(fs, a), b)
    decreases |a|
  {
    if |a| > 0 {
      assert (a + b)[0] == a[0] && (a + b)[1..] == a[1..] + b;
      ApplyConcat(fs[a[0].path := a[0].data], a[1..], b);
    } else {
      assert a + b == b;
    }
  }

  /** The writes of every theme, in the order given. */
  function AllWrites(target: string, themes: seq<Theme>): seq<Write> {
    if |themes| == 0 then [] else ThemeWrites(target, themes[0]) + AllWrites(target, themes[1..])
  }
}
