/**
  The `copy` task: each source file goes to `dest + "/"` under its name with an
  optional literal prefix removed, each rename goes to `dest + "/"` under its new
  name, and the text of every file whose source name ends in `js` or `css` has each
  `@VERSION` replaced by the package version.
 */
module CopyTask {
  import opened JsString

  const VersionToken := "@VERSION"

  /** `source.replace(/@VERSION/g, version)`. */
  function ReplaceVersion(text: string, version: string): (r: string)
    ensures NoOccurrence(text, VersionToken) ==> r == text
  {
    ReplaceAll(text, VersionToken, version)
  }

  /** `/(js|css)$/.test(src)`: the name ends in `js` or in `css`, with or without a dot. */
  predicate IsProcessed(src: string) {
    EndsWith(src, "js") || EndsWith(src, "css")
  }

  /**
    `strip ? fileName.replace(strip, "") : fileName`, where a string `strip` has been
    escaped into an anchored literal pattern: a leading copy of the prefix is removed.
   */
  function TargetName(fileName: string, strip: Option<string>): (r: string)
    ensures strip.Some? && StartsWith(fileName, strip.value) ==> strip.value + r == fileName
    ensures strip.None? || !StartsWith(fileName, strip.value) ==> r == fileName
    ensures |r| <= |fileName|
  {
    if strip.Some? && StartsWith(fileName, strip.value) then
      assert fileName == strip.value + fileName[|strip.value|..];
      fileName[|strip.value|..]
    else fileName
  }

  /** One call of `copyFile`: where the file goes and whether its text is rewritten. */
  datatype CopyJob = CopyJob(src: string, dest: string, process: bool)

  function CopyFile(src: string, dest: string): CopyJob {
    CopyJob(src, dest, IsProcessed(src))
  }

  /**
    The copies the task makes, in order: the listed files, then the renames in the
    order the rename object lists them.
   */
  function CopyJobs(files: seq<string>, dest: string, strip: Option<string>,
                    renames: seq<(string, string)>): (r: seq<CopyJob>)
    ensures |r| == |files| + |renames|
    ensures forall i :: 0 <= i < |files| ==>
      r[i] == CopyFile(files[i], dest + "/" + TargetName(files[i], strip))
    ensures forall j :: 0 <= j < |renames| ==>
      r[|files| + j] == CopyFile(renames[j].0, dest + "/" + renames[j].1)
    decreases |files| + |renames|
  {
    if |files| > 0 then
      [CopyFile(files[0], dest + "/" + TargetName(files[0], strip))] + CopyJobs(files[1..], dest, strip, renames)
    else if |renames| > 0 then
      [CopyFile(renames[0].0, dest + "/" + renames[0].1)] + CopyJobs([], dest, strip, renames[1..])
    else []
  }

  /** The text written for a job, given the text read from its source. */
  function CopiedText(job: CopyJob, text: string, version: string): (r: string)
    ensures !job.process ==> r == text
    ensures NoOccurrence(text, VersionToken) ==> r == text
  {
    if job.process then ReplaceVersion(text, version) else text
  }

  /** Stripping a prefix from a name that carries it gives back the rest of the name. */
  lemma StripRoundTrip(prefix: string, name: string)
    ensures TargetName(prefix + name, Some(prefix)) == name
  {
    assert StartsWith(prefix + name, prefix) by {
      assert (prefix + name)[..|prefix|] == prefix;
    }
    assert (prefix + name)[|prefix|..] == name;
  }

  /**
    Among files that all carry the prefix, and among files that none carries, distinct
    names get distinct targets.
   */
  lemma TargetNameInjective(a: string, b: string, strip: Option<string>)
    requires a != b
    requires strip.Some? ==> (StartsWith(a, strip.value) <==> StartsWith(b, strip.value))
    ensures TargetName(a, strip) != TargetName(b, strip)
  {
  }

  /** Stripping can merge two names: `a/x.js` under prefix `a/` and `x.js` both become `x.js`. */
  lemma StripCanCollide()
    ensures TargetName("a/x.js", Some("a/")) == TargetName("x.js", Some("a/")) == "x.js"
  {
    StripRoundTrip("a/", "x.js");
    assert !StartsWith("x.js", "a/") by {
      assert "x.js"[..2] != "a/" by { assert "x.js"[..2][0] == 'x'; }
    }
  }

  /** Which names are rewritten: `.js`, `.css`, and any name merely ending in those letters. */
  lemma ProcessedNames()
    ensures IsProcessed("jquery.ui.core.js") && IsProcessed("jquery.ui.theme.css")
    ensures IsProcessed("file.cjs") && IsProcessed("scss")
    ensures !IsProcessed("jquery.ui.core.min.map") && !IsProcessed("README.md") && !IsProcessed("s")
  {
    assert "jquery.ui.core.js"[15..] == "js";
    assert "jquery.ui.theme.css"[16..] == "css";
    assert "file.cjs"[6..] == "js";
    assert "scss"[1..] == "css";
    assert "jquery.ui.core.min.map"[20..] != "js" by { assert "jquery.ui.core.min.map"[20..][0] == 'a'; }
    assert "jquery.ui.core.min.map"[19..] != "css" by { assert "jquery.ui.core.min.map"[19..][0] == 'm'; }
    assert "README.md"[7..] != "js" by { assert "README.md"[7..][0] == 'm'; }
    assert "README.md"[6..] != "css" by { assert "README.md"[6..][0] == '.'; }
  }

  /**
    The test `/(js|css)$/` on any name: a file is rewritten exactly when its name is
    some stem followed by `js` or by `css`, whatever the stem (no dot is needed).
   */
  lemma ProcessedExactly(src: string)
    ensures IsProcessed(src) <==> (exists stem :: src == stem + "js") || (exists stem :: src == stem + "css")
  {
    if EndsWith(src, "js") {
      var stem := src[..|src| - 2];
      assert src == stem + "js";
    }
    if EndsWith(src, "css") {
      var stem := src[..|src| - 3];
      assert src == stem + "css";
    }
    forall stem | src == stem + "js" ensures EndsWith(src, "js") {
      assert src[|stem|..] == "js";
    }
    forall stem | src == stem + "css" ensures EndsWith(src, "css") {
      assert src[|stem|..] == "css";
    }
  }

  /**
    Text that is pieces joined by `@VERSION` becomes the same pieces joined by the
    version: every token is replaced and nothing else changes, when no piece holds
    `@VERSION` itself (other `@`s, as in `@import` or `@media`, are fine) and the
    version holds no `$`.
   */
  lemma ReplaceVersionJoin(pieces: seq<string>, version: string)
    requires forall i :: 0 <= i < |pieces| ==> NoOccurrence(pieces[i], VersionToken)
    requires '$' !in version
    ensures ReplaceVersion(Join(pieces, VersionToken), version) == Join(pieces, version)
  {
    assert HeadUnique(VersionToken);
    ReplaceAllJoin(pieces, VersionToken, version);
  }

  /**
    A job made for a listed file copies it under `dest/`, with the prefix removed when
    it carries it; a rename copies its source under its new name.
   */
  lemma JobTargets(files: seq<string>, dest: string, prefix: string, renames: seq<(string, string)>)
    ensures var jobs := CopyJobs(files, dest, Some(prefix), renames);
      && (forall i :: 0 <= i < |files| && StartsWith(files[i], prefix) ==>
            dest + "/" + files[i] == jobs[i].dest[..|dest| + 1] + prefix + jobs[i].dest[|dest| + 1..])
      && (forall i :: 0 <= i < |jobs| ==> StartsWith(jobs[i].dest, dest + "/"))
  {
    var jobs := CopyJobs(files, dest, Some(prefix), renames);
    forall i | 0 <= i < |jobs| ensures StartsWith(jobs[i].dest, dest + "/") {
      var n := if i < |files| then TargetName(files[i], Some(prefix)) else renames[i - |files|].1;
      assert jobs[i].dest == dest + "/" + n;
      assert jobs[i].dest[..|dest| + 1] == dest + "/";
    }
    forall i | 0 <= i < |files| && StartsWith(files[i], prefix)
      ensures dest + "/" + files[i] == jobs[i].dest[..|dest| + 1] + prefix + jobs[i].dest[|dest| + 1..]
    {
      var n := TargetName(files[i], Some(prefix));
      assert jobs[i].dest == dest + "/" + n;
      assert jobs[i].dest[..|dest| + 1] == dest + "/";
      assert jobs[i].dest[|dest| + 1..] == n;
    }
  }
}
