# vega_datasets in Dafny

A model of the catalog and loader layer of `vega_datasets`. This Python package exposes the vega-datasets
collection as loaders: `data.cars()`, `data("cars")`, `local_data.cars()`. The model covers:

- **Catalog** (`Catalog.dfy`). `_load_dataset_info` merges three decoded JSON objects into one catalog.
  It is a method with its two loops, proved equal to the function `Merge`. The module also has the
  sorted listings `list_datasets` / `list_local_datasets` and the checked lookup `_infodict`.
- **Datasets** (`Datasets.dfy`). The loader classes are an enumeration, and the class attributes
  `name`, `_pd_read_kwds` and the `__call__` each class runs are functions of the class.
  The file also has:
  - `Dataset.init`'s dispatch by name;
  - the fields `Dataset.__init__` derives (a `Dataset` value: the source never changes them later);
  - `raw`'s choice of byte source and `filepath`;
  - the option building of `__call__` (a method mirroring `copy` / `update` / `setdefault`);
  - the plan each class's `__call__` follows.
- **Docs** (`Docs.dfy`). The parts of the docstring that depend on the entry: the description text,
  the numbered reference list under its header, and the bundling sentence.
- **Loaders** (`Loaders.dfy`). `DataLoader` and `LocalDataLoader`: the `_datasets` tables, `__dir__`,
  `__getattr__` (including the local loader's three outcomes) and `__call__`.
- **GenerateDatasetsJson** (`GenerateDatasetsJson.dfy`). The loop of `tools/generate_datasets_json.py`'s
  `main`, a method proved equal to the function `Collect`. It splits each file name with
  `os.path.splitext`.
- **Helpers.** `Strings.dfy` holds Python's `str` order, `replace`, `str(int)`, `strip`, `startswith`, `join` and
  `rfind`. `Sorting.dfy` holds `sorted` over distinct names. `Tables.dfy` holds dict comprehensions
  where the later pair wins.

The byte sources, the pandas and JSON parsers and the file system stay abstract:

- A load is described by the `Source` it reads (bundled package path or URL) and the `Plan` it hands the
  bytes to (`Parser` plus options, or `json.loads` with the caller's options).
- `pkgutil.get_data` is a parameter `bundled` (the package paths it can read).
- The directory of core.py is a parameter `packageDir`.
- `os.listdir`'s answer is the input sequence of `GenerateDatasets`.

Where a reading of the code's intent differs from what the code does, the model follows the code:

- **File names.** `main` splits with `os.path.splitext`, which is more than cutting at the last dot of
  the name. When a name's last path component holds only dots before its last dot (".nojekyll"),
  splitext gives no extension. `SplitHiddenName` states this.
- **`return_raw` on an accessor.** `DataLoader`'s docstring (core.py:426-432) says the optional
  parameters, `return_raw` among them, can be passed to either form of call. The accessor form
  `data.cars(...)` does not accept `return_raw`, though: it is `Dataset.__call__`, which forwards every
  unknown keyword to the parser. Only `data("cars", return_raw=True)` returns bytes. With further
  keyword arguments, that form raises TypeError, because `raw` takes none.

## Model

| member | source | states |
|---|---|---|
| Catalog.Merge | vega_datasets/core.py:31-40 | The catalog has exactly the keys of datasets.json. `is_local` is membership in local_datasets.json. Filename and format come from datasets.json. An entry without a description record is left as marked. A described entry takes that record's description and references. |
| Catalog.LoadDatasetInfo | vega_datasets/core.py:35-40 | Succeeds exactly when every described name is in datasets.json, and then returns `Merge`. Otherwise it fails with KeyError on a described name that datasets.json lacks. |
| Catalog.MarkLocal | vega_datasets/core.py:35-36 | After the first loop every dataset is present and marked with `is_local`. No description has been applied yet. |
| Catalog.ApplyDescriptions | vega_datasets/core.py:37-38 | The second loop either raises KeyError for a described name the info lacks, or yields the merged catalog. |
| Catalog.ListDatasets | vega_datasets/core.py:171-174 | Strictly increasing in Python's string order, holding exactly the catalog's names. |
| Catalog.ListLocalDatasets | vega_datasets/core.py:176-180 | Strictly increasing, holding exactly the names whose entry is local. |
| Catalog.LocalListingIsFilteredListing | vega_datasets/core.py:172-180 | The local listing is the full listing with the non-local names dropped, so it is a subsequence of it. |
| Catalog.NoSuchDataset | vega_datasets/core.py:187-191 | The message starts with "No such dataset <name> exists" and contains `list_datasets()`. |
| Catalog.InfoDict | vega_datasets/core.py:183-192 | A known name gives its stored entry. An unknown name gives a ValueError whose message starts with "No such dataset <name> exists" and mentions `list_datasets()`. |
| Datasets.NameAttr | vega_datasets/core.py:262-410 | Exactly `Dataset` itself has no `name`. Every subclass's `name` is non-empty and uses '-', never '_'. |
| Datasets.ReadKwds | vega_datasets/core.py:99-410 | At most one default option. None exactly for `Dataset`, `Miserables`, `US_10M` and `World_110M`. The keys are `parse_dates`, `convert_dates` or `dtype`, and a date option names one column. |
| Datasets.CallOf | vega_datasets/core.py:214-405 | The pivoting `__call__` exactly for `Stocks`, the graph one exactly for `Miserables`, the TopoJSON one exactly for `US_10M` and `World_110M`. |
| Datasets.SubclassesComplete | vega_datasets/core.py:107 | `Dataset.__subclasses__()` holds 15 classes: every loader class except `Dataset` itself. |
| Datasets.Init | vega_datasets/core.py:103-110 | `Dataset` itself exactly when no subclass has the requested `name`. Otherwise a subclass whose `name` it is. |
| Datasets.ClassLookup | vega_datasets/core.py:105-110 | Yields `Dataset` itself exactly when no class has that `name`. Otherwise it yields one of the classes whose `name` is the requested one. |
| Datasets.ClassLookupLastWins | vega_datasets/core.py:105-109 | A class that no later class shares its name with is the one the dict comprehension keeps. |
| Datasets.SubclassNamesDistinct | vega_datasets/core.py:262-410 | Every subclass defines `name`, and no two subclasses share one. |
| Datasets.InitDispatch | vega_datasets/core.py:103-110 | `Dataset.init` picks the subclass whose `name` equals the requested name. When there is none it picks `Dataset`. |
| Datasets.InitStocks | vega_datasets/core.py:262-286 | "stocks" dispatches to `Stocks`. Its default options are exactly `{"parse_dates": ["date"]}`, and it runs the pivoting `__call__`. |
| Datasets.InitGeneric | vega_datasets/core.py:99-110 | A name that no subclass claims gets `Dataset`, with no default options and the generic `__call__`. |
| Datasets.MethodName | vega_datasets/core.py:115 | Same length as the name and free of '-'. Each '-' becomes '_' and every other character is kept. |
| Datasets.MethodNameIdempotent | vega_datasets/core.py:115 | Normalising a normalised name changes nothing. |
| Datasets.NewDataset | vega_datasets/core.py:112-122 | Fails exactly for a name missing from the catalog, with `_infodict`'s error. Otherwise it sets name, class and methodname (no '-'). It also sets `url == base_url + filename` and `pkg_filename == "_data/" + filename`, and copies filename, format, `is_local`, description and references from the entry. |
| Datasets.InitDataset | vega_datasets/core.py:103-122 | Succeeds exactly for catalog names, with the class dispatch picks and the requested name. The instance is that class's `__init__` on the name (`NewDataset`), so url, filename, format, `pkg_filename`, `is_local`, description and references all come from the entry. |
| Datasets.Raw | vega_datasets/core.py:204-212 | The bundled resource exactly when local loading is asked for, the dataset is local and the resource exists. A ValueError naming `pkg_filename` exactly when it is missing. The URL in every other case. |
| Datasets.Filepath | vega_datasets/core.py:253-259 | Fails with "filepath is only valid for local datasets" exactly when the dataset is not local. |
| Datasets.JoinPath | vega_datasets/core.py:257-258 | `os.path.join` ends with its second part. An absolute second part replaces the first. Otherwise the first part comes first, and a '/' separates it from the second when it is non-empty. When the first part is empty or ends in '/', the result is the plain concatenation. |
| Datasets.Basename | vega_datasets/core.py:257-258 | `os.path.basename` is a '/'-free suffix of the path. It is the whole path when the path has no '/', and otherwise it follows a '/'. |
| Datasets.FilepathBasename | vega_datasets/core.py:257-258 | A local dataset's path ends in `_data/<filename>` and its base name is the filename. |
| Datasets.Truthy | vega_datasets/core.py:309 | `if pivoted:` is false exactly for `False`, `0` and the empty string, list and dict. |
| Datasets.ParseOptions | vega_datasets/core.py:235-250 | Fails exactly for a format other than json, csv and tsv, with the message naming it and the three valid formats. It picks the JSON reader exactly for json. The option keys are the defaults', the caller's, plus `sep` for tsv. Caller values override defaults. `sep` is a tab for tsv only when neither side gave one. |
| Datasets.SelectParser | vega_datasets/core.py:235-250 | The copy / update / setdefault steps give exactly `ParseOptions`. |
| Datasets.CallPlan | vega_datasets/core.py:233-250 | The `raw` error propagates, and otherwise the result reads from `raw`'s source. The graph and TopoJSON classes hand the caller's options to `json.loads`. The generic and `Stocks` classes always get a pandas plan: they fail exactly when `ParseOptions` does, and otherwise use its parser and options, with `pivoted` removed for `Stocks`. They pivot exactly for `Stocks` with a truthy `pivoted`. Their failure, once `raw` succeeded, is the "Unrecognized file format: <fmt>. Valid options are ['json', 'csv', 'tsv']." ValueError. |
| Datasets.Call | vega_datasets/core.py:214-405 | Each class's `__call__` gives exactly `CallPlan`: the generic one (core.py:214-250), the `Stocks` override (286-311), the `Miserables` override (347-352) and the `US_10M` / `World_110M` overrides (389-405). |
| Docs.DescriptionText | vega_datasets/core.py:129-133 | Never empty. It is the entry's description when that is non-empty, and the default text when the description is missing or empty. |
| Docs.ReferenceItems | vega_datasets/core.py:140-141 | One item per reference, in order, the i-th labelled `.. [i+1] `. |
| Docs.ReferenceNumbering | vega_datasets/core.py:141 | Each item starts with its one-based label, whose digits read back as its position. |
| Docs.JoinedReferences | vega_datasets/core.py:146-147 | No references join to the empty text. Otherwise the joined text starts with the first item and is not blank. |
| Docs.ReferenceInfo | vega_datasets/core.py:140-148 | Empty without references. Otherwise it is the "References" header followed by every labelled reference, in order, joined by blank lines, so it starts with the header and the first one. |
| Docs.BundleInfo | vega_datasets/core.py:151-160 | The bundled sentence exactly for a local dataset, the not-bundled one exactly otherwise. |
| GenerateDatasetsJson.SplitExt | tools/generate_datasets_json.py:23 | Root and extension concatenate back to the file name. |
| GenerateDatasetsJson.SplitExtShape | tools/generate_datasets_json.py:23 | The extension is empty, or a dot followed by no dot and no '/'. A non-empty one follows a non-dot character of the last path component. |
| GenerateDatasetsJson.SplitExtAtDot | tools/generate_datasets_json.py:23 | Conversely, when a non-dot character of the last path component precedes its last dot, the split is at that dot, also for names starting with '.' such as ".eslintrc.json". |
| GenerateDatasetsJson.DropDot | tools/generate_datasets_json.py:24 | `fmt[1:]`: the first character put back gives the extension. |
| GenerateDatasetsJson.GenerateDatasets | tools/generate_datasets_json.py:21-24 | The loop over the listing builds exactly `Collect` of the listing. |
| GenerateDatasetsJson.CollectKeys | tools/generate_datasets_json.py:21-24 | The keys are exactly the stems of the listed files. |
| GenerateDatasetsJson.CollectRecords | tools/generate_datasets_json.py:22-24 | Each record's filename is a listed file whose stem is the key, and its format is that file's extension without the dot. |
| GenerateDatasetsJson.CollectSnoc | tools/generate_datasets_json.py:24 | One more file adds or replaces the record of its stem. |
| GenerateDatasetsJson.CollectLastWins | tools/generate_datasets_json.py:21-24 | Of files sharing a stem, the last in listing order gives the record. |
| GenerateDatasetsJson.Collect | tools/generate_datasets_json.py:21-24 | There are never more records than files. |
| GenerateDatasetsJson.Stem | tools/generate_datasets_json.py:23 | The key is a prefix of the file name: the whole name, or the part before a dot. |
| GenerateDatasetsJson.FormatOf | tools/generate_datasets_json.py:23-24 | The format holds neither a dot nor a '/'. When the key is the whole file name, the format is empty. Otherwise key + "." + format is the file name. |
| GenerateDatasetsJson.SplitPlainName | tools/generate_datasets_json.py:23-24 | For a plain name with a dot after its first character, key + "." + format is the file name and the format holds no dot. |
| GenerateDatasetsJson.SplitNoDot | tools/generate_datasets_json.py:23-24 | A name without a dot is its own key, with the empty format. |
| GenerateDatasetsJson.SplitHiddenName | tools/generate_datasets_json.py:23-24 | ".name" without a further dot is its own key, with the empty format. |
| GenerateDatasetsJson.GeneratedCatalogFormats | tools/generate_datasets_json.py:24 | In a catalog read from generated records, every entry's format is its file's extension and its name is that file's stem. |
| Loaders.NameTable | vega_datasets/core.py:442 | The keys are exactly the normalised names. Each maps to a listed name with that spelling. |
| Loaders.NameTableLastWins | vega_datasets/core.py:442 | A name that no later name shares its spelling with keeps that spelling. |
| Loaders.DataTable | vega_datasets/core.py:442 | `data._datasets` maps exactly the normalised catalog names, each to a catalog name with that spelling. |
| Loaders.LocalTable | vega_datasets/core.py:465 | `local_data._datasets` maps exactly the normalised local names, each to a local catalog name with that spelling. |
| Loaders.NameTableValueIsLast | vega_datasets/core.py:442 | A key's value is a listed name of that spelling with no later name of that spelling. |
| Loaders.Dir | vega_datasets/core.py:460-461 | `dir(data)` is exactly the set of normalised catalog names. |
| Loaders.LocalDir | vega_datasets/core.py:460-465 | `dir(local_data)` is exactly the set of normalised local names, a subset of `dir(data)`. |
| Loaders.GetAttr | vega_datasets/core.py:454-458 | Succeeds exactly for the spelling of a catalog name. The result is `Dataset.init` of a catalog name with that methodname, so every field comes from its entry. Otherwise it is AttributeError "No dataset named '<attr>'". |
| Loaders.LocalGetAttr | vega_datasets/core.py:469-480 | Succeeds exactly for the spelling of a local name, with `Dataset.init` of a local name. Otherwise it is the "not available locally" ValueError for the spelling of any catalog name, and the "No dataset named" AttributeError for anything else. |
| Loaders.Resolve | vega_datasets/core.py:454-480 | `getattr(loader, attr)` succeeds exactly for the spelling of a name this loader lists, with `Dataset.init` of a listed name of that methodname. It fails with the loader's ValueError or AttributeError otherwise. |
| Loaders.Invoke | vega_datasets/core.py:449-452 | With `return_raw`: TypeError when keyword arguments are given, otherwise `raw`'s outcome. Without it: the dataset call's outcome. |
| Loaders.LoaderCall | vega_datasets/core.py:447-452 | `getattr` on the normalised name, whose error propagates, then `Invoke` on the dataset found. |
| Loaders.UnknownNameRaises | vega_datasets/tests/test_errors.py:7-10 | `data(name)` for a name that no catalog name normalises like fails with "No dataset named '<attr>'". |
| Loaders.Listing | vega_datasets/core.py:444-468 | Strictly increasing, so each name once. `data.list_datasets()` holds exactly the catalog names, and `local_data.list_datasets()` exactly the local ones. |
| Loaders.ListedNamesResolve | vega_datasets/core.py:442-464 | Every name a loader lists resolves through that loader's `getattr`. |
| Loaders.CallNormalises | vega_datasets/core.py:448 | `data(name)` and `data(name.replace("-", "_"))` give the same outcome. |
| Loaders.DataResolvesToName | vega_datasets/core.py:442-458 | Without colliding spellings, `data.<methodname>` is the dataset of that name. |
| Loaders.LocalResolvesToName | vega_datasets/core.py:464-471 | Without colliding spellings, `local_data.<methodname>` is the dataset of that local name. |
| Loaders.LocalRefusesRemote | vega_datasets/core.py:472-477 | `local_data.<methodname>` of a non-local catalog name is the "not available locally" ValueError. |
| Loaders.LoadersAgreeOnLocal | vega_datasets/tests/test_local_datasets.py:9-27 | For a local dataset, `data(name, ...)` and `local_data(name, ...)` agree, with or without `return_raw`. A bundled file is read from the package. |
| Loaders.DataReachable | vega_datasets/core.py:442-458 | The i-th listed name is the dataset of some attribute of `data` exactly when no later listed name has the same spelling. |
| Loaders.CollidingListing | vega_datasets/core.py:174 | A catalog with "a-b" and "a_b" lists them in that order. |
| Loaders.CollidingTable | vega_datasets/core.py:442 | In that catalog `_datasets` has the single key "a_b", mapped to "a_b". |
| Loaders.CollisionKeepsLater | vega_datasets/core.py:442-458 | `data.a_b` is the dataset "a_b", the later name in sorted order. |
| Loaders.CollisionHidesName | vega_datasets/core.py:442-458 | No attribute of `data` yields the dataset "a-b". |
| Strings.BelowIsLexLess | vega_datasets/core.py:174 | The recursive order `sorted` uses is lexicographic order: a common prefix, then a shorter string or a smaller code point. |
| Strings.BelowTransitive | vega_datasets/core.py:174 | The order is transitive. With `BelowIrreflexive`, `BelowAsymmetric` and `BelowTotal` it is a strict total order. |
| Strings.Replace | vega_datasets/core.py:115 | `str.replace` of one character: same length, each occurrence replaced, everything else kept. |
| Strings.ParseNatToString | vega_datasets/core.py:141 | `str(n)` reads back as `n`. |
| Strings.Join | vega_datasets/core.py:146 | `sep.join(items)`: empty for no items, otherwise starting with the first item and ending with the last. |
| Strings.JoinSnoc | vega_datasets/core.py:146 | One more item joins on after one more separator. |
| Strings.LStrip | vega_datasets/core.py:147 | `lstrip()`: a suffix of the string that does not start with whitespace, with only whitespace dropped before it. |
| Strings.RStrip | vega_datasets/core.py:147 | `rstrip()`: a prefix of the string that does not end with whitespace, with only whitespace dropped after it. |
| Strings.IsBlank | vega_datasets/core.py:147 | `not s.strip()` holds exactly when every character is whitespace in the sense of `str.isspace` (`IsSpace`). |
| Strings.RFind | tools/generate_datasets_json.py:23 | `rfind`, as `os.path.splitext` and `basename` use it: -1 exactly when the character is absent, otherwise the index of an occurrence with none after it. |
| Sorting.SortedNames | vega_datasets/core.py:174 | `sorted(names)`: strictly increasing, holding exactly the names, one each. |
| Sorting.SortedUnique | vega_datasets/core.py:174 | Two strictly increasing listings of the same names are equal, so the listing is determined by the names. |
| Sorting.Filter | vega_datasets/core.py:178-180 | Keeps exactly the listed names that pass, as a subsequence, and keeps a sorted listing sorted. |
| Sorting.SortedNamesFilter | vega_datasets/core.py:176-180 | Sorting the names that pass gives the sorted listing filtered. |
| Tables.DictOf | vega_datasets/core.py:442 | The keys are exactly the pairs' keys, and each value comes from a pair with its key. |
| Tables.DictOfLastWins | vega_datasets/core.py:442 | A key maps to the value of its last pair. |
| Tables.DictOfValueIsLast | vega_datasets/core.py:442 | A key's value comes from a pair with that key after which no pair has the key. |
| Tables.DictOfSize | tools/generate_datasets_json.py:21-24 | Never more keys than pairs. |
| Tables.DictOfSnoc | tools/generate_datasets_json.py:24 | One more pair updates the dictionary built so far with that key and value. |

## Left out

- pandas parsing (`pd.read_json`, `pd.read_csv`), `DataFrame.from_records` and the `Stocks` pivot. They are foreign library calls on floating-point data. The model ends at the parser, options and pivot flag chosen.
- `json.loads` of the bytes, in the catalog files and in `Miserables`, `US_10M` and `World_110M`. The catalog is given as already decoded maps, and the loaders are given as a plan that names `json.loads` with the caller's options.
- A description record is modelled as holding only `description` and `references`. Any other key in it would be added or would override the entry through `entry.update` (core.py:38). A `filename`, `format` or `is_local` key would then change the fields `Dataset.__init__` reads (core.py:116-120). The model does not capture such overrides.
- A JSON `null` value. `Option` cannot tell an absent `description` or `references` key from one holding `null`. With `"references": null`, `_make_docstring` calls `enumerate(None)` and raises TypeError (core.py:140-141). The model treats it as having no references.
- `pkgutil.get_data` and `urlopen(...).read()`. They are I/O. The first is the set `bundled` of readable package paths. The second is the `Remote(url)` source, and network errors are not modelled.
- `pkgFilename !in bundled` stands for `get_data` returning `None`. An OSError such as FileNotFoundError raised by `get_data` is not modelled. Neither is `load_json`'s ValueError for a catalog file that is missing (core.py:27-28): the catalog files arrive as decoded maps.
- Keyword arguments named `name`, `return_raw` or `use_local` in `kwargs`. Python binds them to the named parameters of `DataLoader.__call__` and `Dataset.__call__` (core.py:214, 286, 447), so they never reach `**kwargs`, and passing one twice is a TypeError. The model lets such keys flow through `kwargs` to the parser options. (`Stocks`' own `pivoted` parameter is modelled: it is read and removed from `kwargs`.)
- Loaders.Invoke: the TypeError message for keyword arguments to `raw` is the text Python starts it with. The quoted name of the first unexpected keyword that Python appends is not modelled.
- Datasets.Filepath: does not model `os.path.abspath`'s normalisation of `..` and `.`, because that depends on the process's working directory. The path is the two POSIX joins.
- `textwrap.TextWrapper` wrapping, and the `_instance_doc` template with its `{...}` fields. These are library text layout. The docstring parts modelled are the description choice, the reference labels and header, and the bundle sentence.
- The one-time load of `_dataset_info` at class definition and its sharing between instances. The catalog is a value passed to each operation.
- Attributes that really exist on the loader objects (`list_datasets`, `_datasets`, dunder names). Python finds them before `__getattr__`, so a dataset named like one would be shadowed. The model resolves every attribute through `__getattr__`.
- The class default options are not mutated by `__call__`. In the model this holds by construction, because the defaults are a value (`ReadKwds`) and `SelectParser` works on a copy of it.
- Catalog.LoadDatasetInfo: on failure it states only that some described name missing from datasets.json is reported. Which one Python reports depends on dict iteration order, which is not modelled.
- GenerateDatasetsJson.GenerateDatasets: writing the result with `json.dump(..., sort_keys=True)` is I/O and is not modelled. The order of `os.listdir` is whatever input sequence is given.
- Python's `hasattr(subcls, "name")` is modelled by `NameAttr` being an `Option`. It is `None` only for `Dataset` itself, which is not among its own subclasses.
