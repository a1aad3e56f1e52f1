/** tools/generate_datasets_json.py: the loop of `main` that turns every file
    name of the vega-datasets data directory into a datasets.json record,
    keyed by the name without its extension. The extension split follows
    `os.path.splitext` on POSIX paths. */
module GenerateDatasetsJson {
  import opened Strings
  import opened Catalog
  import opened Tables

  /** Some character of `p[lo..hi]` is not a dot. */
  predicate NonDotBetween(p: string, lo: int, hi: int)
    requires 0 <= lo <= hi <= |p|
  {
    exists k :: lo <= k < hi && p[k] != '.'
  }

  /** `os.path.splitext(p)`: the extension starts at the last dot of the last
      path component, unless only dots precede it in that component (so a
      leading dot, as in ".hidden", starts no extension). */
  function SplitExt(p: string): (r: (string, string))
    ensures r.0 + r.1 == p
  {
    var sepIndex := RFind(p, '/');
    var dotIndex := RFind(p, '.');
    if dotIndex > sepIndex && NonDotBetween(p, sepIndex + 1, dotIndex) then
      assert p[..dotIndex] + p[dotIndex..] == p;
      (p[..dotIndex], p[dotIndex..])
    else
      (p, [])
  }

  /** The extension is empty, or a dot followed by neither a dot nor a '/';
      a non-empty one follows a character other than a dot in the last path
      component. */
  lemma SplitExtShape(p: string)
    ensures SplitExt(p).1 == [] ||
      (SplitExt(p).1[0] == '.' && '.' !in SplitExt(p).1[1..] && '/' !in SplitExt(p).1)
    ensures SplitExt(p).1 != [] ==> NonDotBetween(p, RFind(p, '/') + 1, |SplitExt(p).0|)
  {
    var sepIndex := RFind(p, '/');
    var dotIndex := RFind(p, '.');
    if dotIndex > sepIndex && NonDotBetween(p, sepIndex + 1, dotIndex) {
      assert p[dotIndex..][1..] == p[dotIndex + 1..];
      forall j | dotIndex <= j < |p| ensures p[j] != '/' {
        assert '/' !in p[sepIndex + 1..];
        assert p[j] == p[sepIndex + 1..][j - sepIndex - 1];
      }
    }
  }

  /** Conversely, the last dot of the last path component starts the
      extension whenever a character other than a dot comes before it in
      that component (".eslintrc.json" splits into ".eslintrc" and ".json"). */
  lemma SplitExtAtDot(p: string)
    requires RFind(p, '.') > RFind(p, '/')
    requires NonDotBetween(p, RFind(p, '/') + 1, RFind(p, '.'))
    ensures SplitExt(p) == (p[..RFind(p, '.')], p[RFind(p, '.')..])
  {
  }

  /** `fmt[1:]`. */
  function DropDot(ext: string): (r: string)
    ensures ext != [] ==> [ext[0]] + r == ext
    ensures ext == [] ==> r == []
  {
    if ext == [] then [] else ext[1..]
  }

  /** The key of a file's record: the whole name, or the part before a dot. */
  function Stem(filename: string): (r: string)
    ensures r <= filename
    ensures r == filename || filename[|r|] == '.'
  {
    SplitExtShape(filename);
    SplitExt(filename).0
  }

  /** The format of a file's record: its extension without the dot, which
      holds neither a dot nor a '/' and completes the key to the file name. */
  function FormatOf(filename: string): (r: string)
    ensures '.' !in r && '/' !in r
    ensures Stem(filename) == filename || Stem(filename) + "." + r == filename
    ensures Stem(filename) == filename ==> r == []
  {
    SplitExtShape(filename);
    var ext := SplitExt(filename).1;
    assert ext != [] ==> [ext[0]] == ".";
    DropDot(ext)
  }

  /** The record `main` stores for one file name, with its key. */
  function FileEntry(filename: string): (string, Record)
  {
    (Stem(filename), Record(filename, FormatOf(filename)))
  }

  function FileEntries(files: seq<string>): (r: seq<(string, Record)>)
    ensures |r| == |files|
    ensures forall i :: 0 <= i < |files| ==> r[i] == FileEntry(files[i])
  {
    seq(|files|, i requires 0 <= i < |files| => FileEntry(files[i]))
  }

  /** `datasets[name] = {'filename': filename, 'format': fmt[1:]}` for every
      file, in listing order: a later file with the same stem replaces the
      earlier record, so there are never more records than files. */
  function Collect(files: seq<string>): (r: map<string, Record>)
    ensures |r| <= |files|
  {
    DictOfSize(FileEntries(files));
    DictOf(FileEntries(files))
  }

  /** The keys are exactly the stems of the files. */
  lemma CollectKeys(files: seq<string>)
    ensures forall k :: k in Collect(files) <==> exists i :: 0 <= i < |files| && Stem(files[i]) == k
  {
    var entries := FileEntries(files);
    forall k | k in Collect(files) ensures exists i :: 0 <= i < |files| && Stem(files[i]) == k {
      var i :| 0 <= i < |entries| && entries[i].0 == k;
      assert Stem(files[i]) == k;
    }
    forall i | 0 <= i < |files| ensures Stem(files[i]) in Collect(files) {
      assert entries[i].0 == Stem(files[i]);
    }
  }

  /** Every record names one of the files, whose stem is its key and whose
      extension is its format. */
  lemma CollectRecords(files: seq<string>)
    ensures forall k :: k in Collect(files) ==>
      Collect(files)[k].filename in files && Stem(Collect(files)[k].filename) == k &&
      Collect(files)[k].format == FormatOf(Collect(files)[k].filename)
  {
    var entries := FileEntries(files);
    var r := Collect(files);
    forall k | k in r
      ensures r[k].filename in files && Stem(r[k].filename) == k && r[k].format == FormatOf(r[k].filename)
    {
      var i :| 0 <= i < |entries| && entries[i] == (k, r[k]);
      assert FileEntry(files[i]) == (k, r[k]);
    }
  }

  /** The loop of `main` over `os.listdir(data_dir)`. */
  method GenerateDatasets(files: seq<string>) returns (datasets: map<string, Record>)
    ensures datasets == Collect(files)
  {
    datasets := map[];
    var i := 0;
    while i < |files|
      invariant 0 <= i <= |files|
      invariant datasets == Collect(files[..i])
    {
      var filename := files[i];
      var split := SplitExt(filename);
      CollectStep(files, i);
      datasets := datasets[split.0 := Record(filename, DropDot(split.1))];
      i := i + 1;
    }
    assert files[..i] == files;
  }

  /** One more file adds or replaces the record of its stem. */
  lemma CollectSnoc(files: seq<string>, filename: string)
    ensures Collect(files + [filename]) == Collect(files)[Stem(filename) := Record(filename, FormatOf(filename))]
  {
    assert FileEntries(files + [filename]) == FileEntries(files) + [FileEntry(filename)];
    DictOfSnoc(FileEntries(files), Stem(filename), Record(filename, FormatOf(filename)));
  }

  lemma CollectStep(files: seq<string>, i: nat)
    requires i < |files|
    ensures Collect(files[..i + 1]) == Collect(files[..i])[Stem(files[i]) := Record(files[i], FormatOf(files[i]))]
  {
    assert files[..i + 1] == files[..i] + [files[i]];
    CollectSnoc(files[..i], files[i]);
  }

  /** The record of a stem comes from the last file with that stem. */
  lemma CollectLastWins(files: seq<string>, i: nat)
    requires i < |files|
    requires forall j :: i < j < |files| ==> Stem(files[j]) != Stem(files[i])
    ensures Stem(files[i]) in Collect(files)
    ensures Collect(files)[Stem(files[i])] == Record(files[i], FormatOf(files[i]))
  {
    DictOfLastWins(FileEntries(files), i);
  }

  /** A plain file name with a dot after its first character is split at its
      last dot: key + "." + format gives the file name back, and the format
      holds no dot. */
  lemma SplitPlainName(filename: string)
    requires '/' !in filename && filename != [] && filename[0] != '.' && '.' in filename
    ensures Stem(filename) + "." + FormatOf(filename) == filename
    ensures '.' !in FormatOf(filename)
  {
    var dotIndex := RFind(filename, '.');
    assert RFind(filename, '/') == -1;
    assert filename[dotIndex] == '.';
    assert NonDotBetween(filename, 0, dotIndex) by {
      assert filename[0] != '.';
    }
    SplitExtShape(filename);
    var ext := SplitExt(filename).1;
    assert ext != [];
    assert [ext[0]] == ".";
  }

  /** A file name with no dot is its own key, with the empty format. */
  lemma SplitNoDot(filename: string)
    requires '.' !in filename
    ensures Stem(filename) == filename && FormatOf(filename) == []
  {
  }

  /** A hidden file name such as ".nojekyll" has no extension: it is its own
      key, with the empty format, not the empty key with format "nojekyll". */
  lemma SplitHiddenName(rest: string)
    requires '.' !in rest && '/' !in rest
    ensures Stem("." + rest) == "." + rest && FormatOf("." + rest) == []
  {
    var p := "." + rest;
    assert p[1..] == rest;
    assert '.' !in p[1..];
    RFindIs(p, '.', 0);
  }

  /** Read back through `_load_dataset_info`, every catalog entry built from
      a generated datasets.json carries the format of its file's extension,
      and its name is that file's key. */
  lemma GeneratedCatalogFormats(files: seq<string>, descriptions: map<string, Description>,
                                localDatasets: map<string, string>)
    ensures forall n :: n in Merge(Collect(files), descriptions, localDatasets) ==>
      var e := Merge(Collect(files), descriptions, localDatasets)[n];
      e.filename in files && Stem(e.filename) == n && e.format == FormatOf(e.filename)
  {
    CollectRecords(files);
  }
}
