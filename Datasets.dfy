/** The `Dataset` class of vega_datasets/core.py and its per-dataset
    subclasses: choosing the subclass for a name (`Dataset.init`), the fields
    `__init__` derives from the catalog entry, the choice of byte source
    (`raw`), the local path (`filepath`) and the parser and options
    `__call__` hands the bytes to. The bytes and the parsers stay abstract. */
module Datasets {
  import opened Wrappers
  import opened Strings
  import opened Catalog

  /** A keyword-argument value for a parser: the shapes the subclasses and
      callers use. */
  datatype Value =
    | Str(s: string)
    | StrList(items: seq<string>)
    | StrMap(entries: map<string, string>)
    | Bool(b: bool)
    | Int(i: int)

  /** Keyword arguments, `**kwargs`. */
  type Options = map<string, Value>

  /** Python's truth value of a keyword argument (`if pivoted:`): false
      exactly for `False`, `0` and the empty string, list and dict. */
  predicate Truthy(v: Value): (r: bool)
    ensures !r <==> v in {Bool(false), Int(0), Str([]), StrList([]), StrMap(map[])}
  {
    match v
    case Str(s) => s != []
    case StrList(items) => items != []
    case StrMap(entries) => entries != map[]
    case Bool(b) => b
    case Int(i) => i != 0
  }

  /** Which `__call__` a class runs: the generic one, the `Stocks` one that can
      pivot, the `Miserables` one that decodes a graph into two frames, or the
      TopoJSON one that returns the decoded dictionary. */
  datatype CallKind = Tabular | Pivotable | NodesAndLinks | TopoJson

  /** The loader classes of core.py: `Dataset` itself and its subclasses, each
      named as in the source. */
  datatype LoaderClass =
    | DatasetClass | Stocks | Cars | Climate | Github | IowaElectricity | LARiots
    | Miserables | SeattleTemps | SeattleWeather | SFTemps | Sp500
    | UnemploymentAcrossIndustries | US10M | World110M | ZIPCodes

  /** The class attribute `name`; `Dataset` itself has none. */
  function NameAttr(c: LoaderClass): (r: Option<string>)
    ensures r.None? <==> c == DatasetClass
    ensures r.Some? ==> r.value != [] && '_' !in r.value
  {
    match c
    case DatasetClass => None
    case Stocks => Some("stocks")
    case Cars => Some("cars")
    case Climate => Some("climate")
    case Github => Some("github")
    case IowaElectricity => Some("iowa-electricity")
    case LARiots => Some("la-riots")
    case Miserables => Some("miserables")
    case SeattleTemps => Some("seattle-temps")
    case SeattleWeather => Some("seattle-weather")
    case SFTemps => Some("sf-temps")
    case Sp500 => Some("sp500")
    case UnemploymentAcrossIndustries => Some("unemployment-across-industries")
    case US10M => Some("us-10m")
    case World110M => Some("world-110m")
    case ZIPCodes => Some("zipcodes")
  }

  function DateColumns(key: string, column: string): Options
  {
    map[key := StrList([column])]
  }

  /** The class attribute `_pd_read_kwds`: the default parser options. */
  function ReadKwds(c: LoaderClass): (r: Options)
    ensures |r| <= 1
    ensures r == map[] <==> c in {DatasetClass, Miserables, US10M, World110M}
    ensures forall k :: k in r ==> k in {"parse_dates", "convert_dates", "dtype"}
    ensures forall k :: k in r && k != "dtype" ==> r[k].StrList? && |r[k].items| == 1
  {
    match c
    case Stocks => DateColumns("parse_dates", "date")
    case Cars => DateColumns("convert_dates", "Year")
    case Climate => DateColumns("convert_dates", "DATE")
    case Github => DateColumns("parse_dates", "time")
    case IowaElectricity => DateColumns("parse_dates", "year")
    case LARiots => DateColumns("parse_dates", "death_date")
    case SeattleTemps => DateColumns("parse_dates", "date")
    case SeattleWeather => DateColumns("parse_dates", "date")
    case SFTemps => DateColumns("parse_dates", "date")
    case Sp500 => DateColumns("parse_dates", "date")
    case UnemploymentAcrossIndustries => DateColumns("convert_dates", "date")
    case ZIPCodes => map["dtype" := StrMap(map["zip_code" := "object"])]
    case _ => map[]
  }

  /** The `__call__` a class runs: its own override, or the inherited one. */
  function CallOf(c: LoaderClass): (r: CallKind)
    ensures r == Pivotable <==> c == Stocks
    ensures r == NodesAndLinks <==> c == Miserables
    ensures r == TopoJson <==> c == US10M || c == World110M
  {
    match c
    case Stocks => Pivotable
    case Miserables => NodesAndLinks
    case US10M => TopoJson
    case World110M => TopoJson
    case _ => Tabular
  }

  /** `Dataset.__subclasses__()`, in the order the classes are defined. */
  const Subclasses: seq<LoaderClass> := [
    Stocks, Cars, Climate, Github, IowaElectricity, LARiots, Miserables,
    SeattleTemps, SeattleWeather, SFTemps, Sp500, UnemploymentAcrossIndustries,
    US10M, World110M, ZIPCodes]

  /** The subclass list holds every class but `Dataset` itself, once each. */
  lemma SubclassesComplete()
    ensures |Subclasses| == 15
    ensures forall c :: c in Subclasses <==> c != DatasetClass
  {
  }

  /** `clsdict.get(name, cls)` with `clsdict = {subcls.name: subcls for subcls
      in classes if hasattr(subcls, "name")}`: the last class of that name, or
      `Dataset` itself when there is none. */
  function ClassLookup(classes: seq<LoaderClass>, name: string): (c: LoaderClass)
    ensures c == DatasetClass <==> forall i :: 0 <= i < |classes| ==> NameAttr(classes[i]) != Some(name)
    ensures c != DatasetClass ==> c in classes && NameAttr(c) == Some(name)
    decreases |classes|
  {
    if classes == [] then DatasetClass
    else
      var prefix := classes[..|classes| - 1];
      assert forall i :: 0 <= i < |prefix| ==> prefix[i] == classes[i];
      if NameAttr(classes[|classes| - 1]) == Some(name) then classes[|classes| - 1]
      else ClassLookup(prefix, name)
  }

  /** A class no later class shares its name with is the one the lookup finds. */
  lemma {:induction false} ClassLookupLastWins(classes: seq<LoaderClass>, i: nat)
    requires i < |classes| && NameAttr(classes[i]).Some?
    requires forall j :: i < j < |classes| ==> NameAttr(classes[j]) != NameAttr(classes[i])
    ensures ClassLookup(classes, NameAttr(classes[i]).value) == classes[i]
    decreases |classes|
  {
    var prefix := classes[..|classes| - 1];
    if i < |classes| - 1 {
      assert prefix[i] == classes[i];
      ClassLookupLastWins(prefix, i);
    }
  }

  /** Every subclass has a `name`, and no two share one. */
  lemma SubclassNamesDistinct()
    ensures forall i :: 0 <= i < |Subclasses| ==> NameAttr(Subclasses[i]).Some?
    ensures forall i, j :: 0 <= i < j < |Subclasses| ==> NameAttr(Subclasses[i]) != NameAttr(Subclasses[j])
  {
  }

  /** `Dataset.init(name)`'s choice of class: `clsdict.get(name, cls)`. */
  function Init(name: string): (c: LoaderClass)
    ensures c == DatasetClass <==> forall i :: 0 <= i < |Subclasses| ==> NameAttr(Subclasses[i]) != Some(name)
    ensures c != DatasetClass ==> c in Subclasses && NameAttr(c) == Some(name)
  {
    ClassLookup(Subclasses, name)
  }

  /** Dispatch picks the subclass whose `name` is the requested name, and
      `Dataset` itself when none is. */
  lemma InitDispatch(name: string)
    ensures forall i :: 0 <= i < |Subclasses| && NameAttr(Subclasses[i]) == Some(name) ==>
      Init(name) == Subclasses[i]
    ensures (forall i :: 0 <= i < |Subclasses| ==> NameAttr(Subclasses[i]) != Some(name)) ==>
      Init(name) == DatasetClass
  {
    SubclassNamesDistinct();
    forall i | 0 <= i < |Subclasses| && NameAttr(Subclasses[i]) == Some(name)
      ensures Init(name) == Subclasses[i]
    {
      ClassLookupLastWins(Subclasses, i);
    }
  }

  /** The stocks loader parses its `date` column as dates and can pivot. */
  lemma InitStocks()
    ensures Init("stocks") == Stocks
    ensures ReadKwds(Init("stocks")) == map["parse_dates" := StrList(["date"])]
    ensures CallOf(Init("stocks")) == Pivotable
  {
    InitDispatch("stocks");
    assert NameAttr(Subclasses[0]) == Some("stocks");
  }

  /** A name no subclass claims gets `Dataset` itself: no default parser
      options and the generic `__call__`. */
  lemma InitGeneric(name: string)
    requires forall i :: 0 <= i < |Subclasses| ==> NameAttr(Subclasses[i]) != Some(name)
    ensures Init(name) == DatasetClass
    ensures ReadKwds(Init(name)) == map[] && CallOf(Init(name)) == Tabular
  {
  }

  /** `name.replace("-", "_")`: the attribute spelling of a dataset name. */
  function MethodName(name: string): (r: string)
    ensures |r| == |name| && '-' !in r
    ensures forall i :: 0 <= i < |name| && name[i] != '-' ==> r[i] == name[i]
    ensures forall i :: 0 <= i < |name| && name[i] == '-' ==> r[i] == '_'
  {
    Replace(name, '-', '_')
  }

  lemma MethodNameIdempotent(name: string)
    ensures MethodName(MethodName(name)) == MethodName(name)
  {
    var m := MethodName(name);
    assert forall i :: 0 <= i < |m| ==> m[i] != '-';
  }

  const SourceTag := "v1.29.0"
  const BaseUrl := "https://cdn.jsdelivr.net/npm/vega-datasets@" + SourceTag + "/data/"

  /** An instance of a loader class: the fields `Dataset.__init__` sets. */
  datatype Dataset = Dataset(
    cls: LoaderClass,
    name: string,
    methodname: string,
    filename: string,
    url: string,
    format: string,
    pkgFilename: string,
    isLocal: bool,
    description: Option<string>,
    references: Option<seq<string>>)

  /** `cls(name)`, i.e. `Dataset.__init__`: fails as `_infodict` does for an
      unknown name, otherwise derives the fields from the catalog entry. */
  function NewDataset(cat: Catalog, cls: LoaderClass, name: string): (r: Result<Dataset, Err>)
    ensures r.Failure? <==> name !in cat
    ensures r.Failure? ==> r.error == InfoDict(cat, name).error
    ensures r.Success? ==>
      var d := r.value;
      d.cls == cls && d.name == name &&
      d.methodname == MethodName(name) && '-' !in d.methodname &&
      d.filename == cat[name].filename && d.format == cat[name].format &&
      d.url == BaseUrl + d.filename &&
      d.pkgFilename == "_data/" + d.filename &&
      d.isLocal == cat[name].isLocal &&
      d.description == cat[name].description && d.references == cat[name].references
  {
    match InfoDict(cat, name)
    case Failure(e) => Failure(e)
    case Success(info) =>
      Success(Dataset(cls, name, MethodName(name), info.filename, BaseUrl + info.filename,
                      info.format, "_data/" + info.filename, info.isLocal,
                      info.description, info.references))
  }

  /** `Dataset.init(name)`: an instance of the class dispatch picks, built by
      that class's `__init__`, so every field comes from the catalog entry. */
  function InitDataset(cat: Catalog, name: string): (r: Result<Dataset, Err>)
    ensures r.Success? <==> name in cat
    ensures r.Success? ==> r.value.cls == Init(name) && r.value.name == name
    ensures r == NewDataset(cat, Init(name), name)
  {
    NewDataset(cat, Init(name), name)
  }

  /** Where `raw` takes the bytes from. */
  datatype Source = Bundled(path: string) | Remote(url: string)

  const PackagePathPrefix := "Cannot locate package path vega_datasets:"

  /** `Dataset.raw(use_local)`: the bundled resource when local loading is
      asked for and the dataset is local, the URL otherwise. `bundled` is the
      set of package paths `pkgutil.get_data` can read. */
  function Raw(d: Dataset, useLocal: bool, bundled: set<string>): (r: Result<Source, Err>)
    ensures r == Success(Bundled(d.pkgFilename)) <==> useLocal && d.isLocal && d.pkgFilename in bundled
    ensures r.Failure? <==> useLocal && d.isLocal && d.pkgFilename !in bundled
    ensures r.Failure? ==> r.error == ValueError(PackagePathPrefix + d.pkgFilename)
    ensures !(useLocal && d.isLocal) ==> r == Success(Remote(d.url))
  {
    if useLocal && d.isLocal then
      if d.pkgFilename in bundled then Success(Bundled(d.pkgFilename))
      else Failure(ValueError(PackagePathPrefix + d.pkgFilename))
    else Success(Remote(d.url))
  }

  /** `os.path.join(a, b)` on POSIX. */
  function JoinPath(a: string, b: string): (r: string)
    ensures EndsWith(r, b)
    ensures StartsWith(b, "/") ==> r == b
    ensures !StartsWith(b, "/") ==> StartsWith(r, a) && |a| + |b| <= |r| <= |a| + |b| + 1
    ensures !StartsWith(b, "/") && a != [] ==> r[|r| - |b| - 1] == '/'
    ensures !StartsWith(b, "/") && (a == [] || EndsWith(a, "/")) ==> r == a + b
  {
    if StartsWith(b, "/") then b
    else if a == [] || EndsWith(a, "/") then a + b
    else a + "/" + b
  }

  /** `os.path.basename(p)` on POSIX: the text after the last '/'. */
  function Basename(p: string): (r: string)
    ensures '/' !in r && EndsWith(p, r)
    ensures '/' !in p ==> r == p
    ensures '/' in p ==> |r| < |p| && p[|p| - |r| - 1] == '/'
  {
    p[RFind(p, '/') + 1..]
  }

  const NotLocalMessage := "filepath is only valid for local datasets"

  /** `Dataset.filepath`, with `packageDir` standing for the directory of core.py. */
  function Filepath(d: Dataset, packageDir: string): (r: Result<string, Err>)
    ensures r.Failure? <==> !d.isLocal
    ensures r.Failure? ==> r.error == ValueError(NotLocalMessage)
  {
    if !d.isLocal then Failure(ValueError(NotLocalMessage))
    else Success(JoinPath(JoinPath(packageDir, "_data"), d.filename))
  }

  /** Joining "_data" onto a directory gives a path ending in "_data". */
  lemma JoinDataDir(packageDir: string)
    ensures EndsWith(JoinPath(packageDir, "_data"), "_data")
  {
    var b := "_data";
    assert !StartsWith(b, "/") by {
      assert b[0] != '/';
    }
    var p := JoinPath(packageDir, b);
    assert p[|p| - |b|..] == b;
  }

  /** A relative file name is joined on after a '/'. */
  lemma JoinRelative(dir: string, f: string)
    requires EndsWith(dir, "_data")
    requires f != [] && '/' !in f
    ensures JoinPath(dir, f) == dir + "/" + f
  {
    assert !StartsWith(f, "/") by {
      assert f[0] != '/';
    }
    assert dir[|dir| - 1] == "_data"[4];
    assert !EndsWith(dir, "/") by {
      assert dir[|dir| - 1..] == [dir[|dir| - 1]];
    }
  }

  /** A local dataset's path names its file inside the `_data` directory. */
  lemma FilepathBasename(d: Dataset, packageDir: string)
    requires d.isLocal && d.filename != [] && '/' !in d.filename
    ensures Filepath(d, packageDir).Success?
    ensures EndsWith(Filepath(d, packageDir).value, "_data/" + d.filename)
    ensures Basename(Filepath(d, packageDir).value) == d.filename
  {
    var dir := JoinPath(packageDir, "_data");
    JoinDataDir(packageDir);
    JoinRelative(dir, d.filename);
    assert Filepath(d, packageDir).value == dir + "/" + d.filename;
    EndsWithDataFile(dir, d.filename);
    BasenameAfterSlash(dir, d.filename);
  }

  /** `dir/f` ends in `_data/f` when `dir` ends in `_data`. */
  lemma EndsWithDataFile(dir: string, f: string)
    requires EndsWith(dir, "_data")
    ensures EndsWith(dir + "/" + f, "_data/" + f)
  {
    var p := dir + "/" + f;
    var tail := "_data/" + f;
    assert p[|p| - |tail|..] == dir[|dir| - 5..] + "/" + f;
  }

  /** The base name of `dir/f` is `f` when `f` holds no '/'. */
  lemma BasenameAfterSlash(dir: string, f: string)
    requires '/' !in f
    ensures Basename(dir + "/" + f) == f
  {
    var p := dir + "/" + f;
    assert p[|dir| + 1..] == f;
    RFindIs(p, '/', |dir|);
  }

  /** The pandas reader `__call__` hands the bytes to. */
  datatype Parser = ReadJson | ReadCsv

  datatype Parse = Parse(parser: Parser, options: Options)

  const FormatPrefix := "Unrecognized file format: "
  const FormatHint := ". Valid options are ['json', 'csv', 'tsv']."

  function UnrecognizedFormat(format: string): Err
  {
    ValueError(FormatPrefix + format + FormatHint)
  }

  /** The parser and keyword arguments the generic `__call__` uses: the class
      defaults overridden by the caller's options, with a tab separator for
      tsv unless one was given. */
  function ParseOptions(format: string, defaults: Options, kwargs: Options): (r: Result<Parse, Err>)
    ensures r.Failure? <==> format != "json" && format != "csv" && format != "tsv"
    ensures r.Failure? ==> r.error == UnrecognizedFormat(format)
    ensures r.Success? ==> (r.value.parser == ReadJson <==> format == "json")
    ensures r.Success? ==>
      r.value.options.Keys == defaults.Keys + kwargs.Keys + (if format == "tsv" then {"sep"} else {})
    ensures r.Success? ==> forall k :: k in kwargs ==> r.value.options[k] == kwargs[k]
    ensures r.Success? ==> forall k :: k in defaults && k !in kwargs ==> r.value.options[k] == defaults[k]
    ensures r.Success? && format == "tsv" && "sep" !in defaults && "sep" !in kwargs ==>
      r.value.options["sep"] == Str("\t")
  {
    var kwds := defaults + kwargs;
    if format == "json" then Success(Parse(ReadJson, kwds))
    else if format == "csv" then Success(Parse(ReadCsv, kwds))
    else if format == "tsv" then Success(Parse(ReadCsv, if "sep" in kwds then kwds else kwds["sep" := Str("\t")]))
    else Failure(UnrecognizedFormat(format))
  }

  /** The option building of `Dataset.__call__`: `kwds = defaults.copy()`,
      `kwds.update(kwargs)`, then the format dispatch with `setdefault("sep", "\t")`. */
  method SelectParser(format: string, defaults: Options, kwargs: Options) returns (r: Result<Parse, Err>)
    ensures r == ParseOptions(format, defaults, kwargs)
  {
    var kwds := defaults;
    kwds := kwds + kwargs;
    if format == "json" {
      r := Success(Parse(ReadJson, kwds));
    } else if format == "csv" {
      r := Success(Parse(ReadCsv, kwds));
    } else if format == "tsv" {
      if "sep" !in kwds {
        kwds := kwds["sep" := Str("\t")];
      }
      r := Success(Parse(ReadCsv, kwds));
    } else {
      r := Failure(UnrecognizedFormat(format));
    }
  }

  /** What the TopoJSON and graph loaders return from `json.loads`. */
  datatype Shape = NodesLinksFrames | TopologyDict

  /** How the bytes are turned into the result: a pandas reader (then, for
      stocks, an optional pivot), or `json.loads` with the caller's options. */
  datatype Plan = Pandas(parse: Parse, pivoted: bool) | JsonLoads(kwargs: Options, shape: Shape)

  datatype Load = Load(source: Source, plan: Plan)

  /** `Stocks.__call__` takes `pivoted` out of the options before they reach
      the parser. */
  function ParserKwargs(cls: LoaderClass, kwargs: Options): Options
  {
    if CallOf(cls) == Pivotable then kwargs - {"pivoted"} else kwargs
  }

  predicate Pivoted(cls: LoaderClass, kwargs: Options)
  {
    CallOf(cls) == Pivotable && "pivoted" in kwargs && Truthy(kwargs["pivoted"])
  }

  /** The outcome of calling a dataset, `d(use_local=..., **kwargs)`: the byte
      source is chosen first, then the class's `__call__` decides the parsing. */
  function CallPlan(d: Dataset, useLocal: bool, kwargs: Options, bundled: set<string>): (r: Result<Load, Err>)
    ensures Raw(d, useLocal, bundled).Failure? ==> r == Failure(Raw(d, useLocal, bundled).error)
    ensures r.Success? ==> Raw(d, useLocal, bundled) == Success(r.value.source)
    ensures Raw(d, useLocal, bundled).Success? && (CallOf(d.cls) == NodesAndLinks || CallOf(d.cls) == TopoJson) ==>
      r.Success? && r.value.plan == JsonLoads(kwargs, if CallOf(d.cls) == NodesAndLinks then NodesLinksFrames else TopologyDict)
    ensures Raw(d, useLocal, bundled).Success? && (CallOf(d.cls) == Tabular || CallOf(d.cls) == Pivotable) ==>
      (r.Failure? <==> ParseOptions(d.format, ReadKwds(d.cls), ParserKwargs(d.cls, kwargs)).Failure?)
    ensures r.Failure? && Raw(d, useLocal, bundled).Success? && (CallOf(d.cls) == Tabular || CallOf(d.cls) == Pivotable) ==>
      r.error == UnrecognizedFormat(d.format)
    ensures r.Success? && (CallOf(d.cls) == Tabular || CallOf(d.cls) == Pivotable) ==>
      r.value.plan == Pandas(ParseOptions(d.format, ReadKwds(d.cls), ParserKwargs(d.cls, kwargs)).value,
                             Pivoted(d.cls, kwargs))
    ensures r.Success? && r.value.plan.Pandas? ==>
      Success(r.value.plan.parse) == ParseOptions(d.format, ReadKwds(d.cls), ParserKwargs(d.cls, kwargs)) &&
      (r.value.plan.pivoted <==> Pivoted(d.cls, kwargs))
  {
    match Raw(d, useLocal, bundled)
    case Failure(e) => Failure(e)
    case Success(src) =>
      match CallOf(d.cls)
      case NodesAndLinks => Success(Load(src, JsonLoads(kwargs, NodesLinksFrames)))
      case TopoJson => Success(Load(src, JsonLoads(kwargs, TopologyDict)))
      case _ =>
        match ParseOptions(d.format, ReadKwds(d.cls), ParserKwargs(d.cls, kwargs))
        case Failure(e) => Failure(e)
        case Success(p) => Success(Load(src, Pandas(p, Pivoted(d.cls, kwargs))))
  }

  /** `d.__call__(use_local, **kwargs)` as the classes run it. */
  method Call(d: Dataset, useLocal: bool, kwargs: Options, bundled: set<string>) returns (r: Result<Load, Err>)
    ensures r == CallPlan(d, useLocal, kwargs, bundled)
  {
    var raw := Raw(d, useLocal, bundled);
    if raw.Failure? {
      return Failure(raw.error);
    }
    var src := raw.value;
    match CallOf(d.cls) {
      case NodesAndLinks =>
        r := Success(Load(src, JsonLoads(kwargs, NodesLinksFrames)));
      case TopoJson =>
        r := Success(Load(src, JsonLoads(kwargs, TopologyDict)));
      case Pivotable =>
        var pivoted := "pivoted" in kwargs && Truthy(kwargs["pivoted"]);
        var parse := SelectParser(d.format, ReadKwds(d.cls), kwargs - {"pivoted"});
        r := if parse.Failure? then Failure(parse.error) else Success(Load(src, Pandas(parse.value, pivoted)));
      case Tabular =>
        var parse := SelectParser(d.format, ReadKwds(d.cls), kwargs);
        r := if parse.Failure? then Failure(parse.error) else Success(Load(src, Pandas(parse.value, false)));
    }
  }
}
