/** Export manifests: which report files a publication promises, and whether they are still there byte for byte. */
module Publication {
  import opened Events
  import opened Manifests

  type Bytes = string

  /** The files below the report directory. */
  type Tree = map<Rel, Bytes>

  const FORMATS: seq<string> := ["json", "csv", "html", "parquet"]

  /** Stands for the injective, never empty digest of the bytes. */
  function DigestOf(content: Bytes): string {
    "sha256:" + content
  }

  datatype Entry = Entry(path: Rel, digest: Option<string>)

  datatype ExportManifest = ExportManifest(version: int, files: map<string, Entry>)

  datatype BuildResult = Built(manifest: ExportManifest) | MissingFormats | Unreadable

  /* ---- file name suffixes ---- */

  function LastDot(name: string): (at: int)
    ensures -1 <= at < |name|
  {
    if name == "" then -1
    else if name[|name| - 1] == '.' then |name| - 1
    else LastDot(name[..|name| - 1])
  }

  /** The suffix without its dot; names that start or end with their last dot have none. */
  function Suffix(name: string): string {
    var at := LastDot(name);
    if 0 < at < |name| - 1 then name[at + 1..] else ""
  }

  function SuffixOf(path: Rel): string {
    if path.parts == [] then "" else Suffix(path.parts[|path.parts| - 1])
  }

  lemma {:induction false} SuffixOfDotted(stem: string, format: string)
    requires '.' !in format
    ensures LastDot(stem + "." + format) == |stem|
  {
    var name := stem + "." + format;
    if format == "" {
      assert name[|name| - 1] == '.';
    } else {
      SuffixOfDotted(stem, format[..|format| - 1]);
      assert name[..|name| - 1] == stem + "." + format[..|format| - 1];
      assert name[|name| - 1] == format[|format| - 1];
    }
  }

  /** The suffix of a file name is what follows its last dot, if something stands on both sides of it. */
  lemma {:induction false} SuffixExactly(name: string, format: string)
    requires format != ""
    ensures Suffix(name) == format <==> exists stem :: stem != "" && '.' !in format && name == stem + "." + format
  {
    LastDotIsLast(name);
    var at := LastDot(name);
    if Suffix(name) == format {
      assert name == name[..at] + "." + format;
    }
    if stem :| stem != "" && '.' !in format && name == stem + "." + format {
      SuffixOfDotted(stem, format);
      assert name[|stem| + 1..] == format;
    }
  }

  lemma {:induction false} LastDotIsLast(name: string)
    ensures var at := LastDot(name); (at >= 0 ==> name[at] == '.') && forall i :: at < i < |name| ==> name[i] != '.'
  {
    if name != "" && name[|name| - 1] != '.' {
      LastDotIsLast(name[..|name| - 1]);
    }
  }

  /* ---- checking ---- */

  predicate ExportMatches(tree: Tree, path: Rel, digest: Option<string>) {
    digest.Some? && digest.value != "" && path in tree && DigestOf(tree[path]) == digest.value
  }

  predicate EntryMatches(tree: Tree, format: string, entry: Entry) {
    && entry.path.parts != [] && !Unsafe(entry.path) && SuffixOf(entry.path) == format
    && ExportMatches(tree, entry.path, entry.digest)
  }

  /** Every promised format is there under a safe path and has its promised bytes. */
  predicate Matches(tree: Tree, manifest: ExportManifest) {
    && manifest.version == 1
    && manifest.files.Keys == (set f | f in FORMATS)
    && forall f :: f in FORMATS ==> EntryMatches(tree, f, manifest.files[f])
  }

  /** A promised file: under a relative path without "..", named after its format, with the promised bytes. */
  ghost predicate Kept(tree: Tree, entry: Entry, format: string) {
    && !entry.path.absolute && entry.path.parts != [] && ".." !in entry.path.parts
    && (exists stem :: stem != "" && entry.path.parts[|entry.path.parts| - 1] == stem + "." + format)
    && entry.path in tree && entry.digest == Some(DigestOf(tree[entry.path]))
  }

  /** The check passes exactly if the manifest promises these four formats and each of their files is kept. */
  lemma {:induction false} MatchesExactly(tree: Tree, manifest: ExportManifest)
    ensures Matches(tree, manifest) <==>
              && manifest.version == 1 && manifest.files.Keys == {"json", "csv", "html", "parquet"}
              && Kept(tree, manifest.files["json"], "json") && Kept(tree, manifest.files["csv"], "csv")
              && Kept(tree, manifest.files["html"], "html") && Kept(tree, manifest.files["parquet"], "parquet")
  {
    assert (set f | f in FORMATS) == {"json", "csv", "html", "parquet"};
    forall f | f in FORMATS && f in manifest.files ensures EntryMatches(tree, f, manifest.files[f]) <==> Kept(tree, manifest.files[f], f) {
      EntryExactly(tree, manifest.files[f], f);
    }
    assert "json" in FORMATS && "csv" in FORMATS && "html" in FORMATS && "parquet" in FORMATS;
    hide EntryMatches, Kept;
    assert forall f :: f in FORMATS <==> f == "json" || f == "csv" || f == "html" || f == "parquet";
  }

  lemma EntryExactly(tree: Tree, entry: Entry, format: string)
    requires format in FORMATS
    ensures EntryMatches(tree, format, entry) <==> Kept(tree, entry, format)
  {
    hide LastDot, Suffix;
    assert format != "" && '.' !in format;
    if entry.path.parts != [] {
      SuffixExactly(entry.path.parts[|entry.path.parts| - 1], format);
    }
    if entry.path in tree {
      assert DigestOf(tree[entry.path]) != "";
    }
  }

  method ManifestMatches(tree: Tree, manifest: Option<ExportManifest>) returns (ok: bool)
    ensures ok <==> manifest.Some? && Matches(tree, manifest.value)
  {
    if manifest.None? || manifest.value.version != 1 {
      return false;
    }
    var files := manifest.value.files;
    if files.Keys != set f | f in FORMATS {
      return false;
    }
    for i := 0 to |FORMATS|
      invariant forall f :: f in FORMATS[..i] ==> EntryMatches(tree, f, files[f])
    {
      var format := FORMATS[i];
      assert format in FORMATS;
      if !EntryMatches(tree, format, files[format]) {
        return false;
      }
    }
    return true;
  }

  /* ---- building ---- */

  /** `{Path(path).suffix.lstrip("."): Path(path) for path in paths}`: a later path wins. */
  function ByFormat(paths: seq<Rel>): map<string, Rel> {
    if paths == [] then map[]
    else ByFormat(paths[..|paths| - 1])[SuffixOf(paths[|paths| - 1]) := paths[|paths| - 1]]
  }

  lemma {:induction false} ByFormatKnowsItsSuffix(paths: seq<Rel>, f: string)
    requires f in ByFormat(paths)
    ensures ByFormat(paths)[f] in paths && SuffixOf(ByFormat(paths)[f]) == f
  {
    var most, last := paths[..|paths| - 1], paths[|paths| - 1];
    if f != SuffixOf(last) {
      ByFormatKnowsItsSuffix(most, f);
    }
  }

  /** A manifest that promises exactly the given files as they are in the tree. */
  predicate Describes(tree: Tree, paths: seq<Rel>, manifest: ExportManifest) {
    && manifest.version == 1
    && manifest.files.Keys == (set f | f in FORMATS)
    && (forall f :: f in FORMATS ==> f in ByFormat(paths) && ByFormat(paths)[f] in tree)
    && (forall f :: f in FORMATS ==> manifest.files[f] == Entry(ByFormat(paths)[f], Some(DigestOf(tree[ByFormat(paths)[f]]))))
  }

  method BuildExportManifest(tree: Tree, paths: seq<Rel>) returns (r: BuildResult)
    ensures r.Built? <==> forall f :: f in FORMATS ==> f in ByFormat(paths) && ByFormat(paths)[f] in tree
    ensures r.MissingFormats? <==> exists f :: f in FORMATS && f !in ByFormat(paths)
    ensures r.Built? ==> Describes(tree, paths, r.manifest)
  {
    var byFormat: map<string, Rel> := map[];
    for i := 0 to |paths|
      invariant byFormat == ByFormat(paths[..i])
    {
      assert paths[..i + 1][..i] == paths[..i];
      byFormat := byFormat[SuffixOf(paths[i]) := paths[i]];
    }
    assert paths[..|paths|] == paths;
    if exists f :: f in FORMATS && f !in byFormat {
      return MissingFormats;
    }
    var files: map<string, Entry> := map[];
    for i := 0 to |FORMATS|
      invariant files.Keys == set f | f in FORMATS[..i]
      invariant forall f :: f in FORMATS[..i] ==>
                  byFormat[f] in tree && files[f] == Entry(byFormat[f], Some(DigestOf(tree[byFormat[f]])))
    {
      var format := FORMATS[i];
      assert format in FORMATS;
      if byFormat[format] !in tree {
        return Unreadable;
      }
      files := files[format := Entry(byFormat[format], Some(DigestOf(tree[byFormat[format]])))];
      assert FORMATS[..i + 1] == FORMATS[..i] + [format];
    }
    return Built(ExportManifest(1, files));
  }

  lemma SameDigestSameBytes(a: Bytes, b: Bytes)
    requires DigestOf(a) == DigestOf(b)
    ensures a == b
  {
    assert DigestOf(a)[7..] == a && DigestOf(b)[7..] == b;
  }

  /** A manifest built from one tree matches another exactly if each promised file is in it with the same bytes. */
  lemma {:induction false} MatchesIffUnchanged(before: Tree, after: Tree, paths: seq<Rel>, manifest: ExportManifest)
    requires Describes(before, paths, manifest) && forall p :: p in paths ==> !Unsafe(p) && p.parts != []
    ensures Matches(after, manifest) <==>
            forall f :: f in FORMATS ==> ByFormat(paths)[f] in after && after[ByFormat(paths)[f]] == before[ByFormat(paths)[f]]
  {
    hide SuffixOf, ByFormat, DigestOf;
    forall f | f in FORMATS
      ensures EntryMatches(after, f, manifest.files[f]) <==>
              ByFormat(paths)[f] in after && after[ByFormat(paths)[f]] == before[ByFormat(paths)[f]]
    {
      EntryMatchesIffUnchanged(before, after, paths, manifest, f);
    }
  }

  lemma EntryMatchesIffUnchanged(before: Tree, after: Tree, paths: seq<Rel>, manifest: ExportManifest, f: string)
    requires Describes(before, paths, manifest) && f in FORMATS
    requires forall p :: p in paths ==> !Unsafe(p) && p.parts != []
    ensures EntryMatches(after, f, manifest.files[f]) <==>
            ByFormat(paths)[f] in after && after[ByFormat(paths)[f]] == before[ByFormat(paths)[f]]
  {
    hide SuffixOf, ByFormat, Unsafe;
    ByFormatKnowsItsSuffix(paths, f);
    var path := ByFormat(paths)[f];
    if path in after && DigestOf(after[path]) == DigestOf(before[path]) {
      SameDigestSameBytes(after[path], before[path]);
    }
  }
}
