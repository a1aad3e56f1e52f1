/** The loader facades of vega_datasets/core.py: `DataLoader` (`data`),
    which exposes every catalog name as an attribute, and `LocalDataLoader`
    (`local_data`), which exposes only the local ones and tells a known but
    remote-only name apart from an unknown one. */
module Loaders {
  import opened Wrappers
  import opened Strings
  import opened Sorting
  import opened Catalog
  import opened Datasets
  import opened Tables

  function NamePairs(names: seq<string>): (r: seq<(string, string)>)
    ensures |r| == |names|
    ensures forall i :: 0 <= i < |names| ==> r[i] == (MethodName(names[i]), names[i])
  {
    seq(|names|, i requires 0 <= i < |names| => (MethodName(names[i]), names[i]))
  }

  /** `{name.replace("-", "_"): name for name in names}`: on two names with
      the same attribute spelling, the later one wins. */
  function NameTable(names: seq<string>): (t: map<string, string>)
    ensures forall k :: k in t <==> exists i :: 0 <= i < |names| && MethodName(names[i]) == k
    ensures forall k :: k in t ==> t[k] in names && MethodName(t[k]) == k
  {
    var pairs := NamePairs(names);
    var t := DictOf(pairs);
    assert forall k :: k in t ==> t[k] in names && MethodName(t[k]) == k by {
      forall k | k in t ensures t[k] in names && MethodName(t[k]) == k {
        var i :| 0 <= i < |pairs| && pairs[i] == (k, t[k]);
      }
    }
    assert forall k :: k in t ==> exists i :: 0 <= i < |names| && MethodName(names[i]) == k by {
      forall k | k in t ensures exists i :: 0 <= i < |names| && MethodName(names[i]) == k {
        var i :| 0 <= i < |pairs| && pairs[i].0 == k;
      }
    }
    assert forall i :: 0 <= i < |names| ==> MethodName(names[i]) in t by {
      forall i | 0 <= i < |names| ensures MethodName(names[i]) in t {
        assert pairs[i].0 == MethodName(names[i]);
      }
    }
    t
  }

  /** On distinct spellings after it, a name keeps its attribute. */
  lemma NameTableLastWins(names: seq<string>, i: nat)
    requires i < |names|
    requires forall j :: i < j < |names| ==> MethodName(names[j]) != MethodName(names[i])
    ensures MethodName(names[i]) in NameTable(names)
    ensures NameTable(names)[MethodName(names[i])] == names[i]
  {
    DictOfLastWins(NamePairs(names), i);
  }

  /** The value under a key is the last name of that spelling. */
  lemma NameTableValueIsLast(names: seq<string>, k: string)
    requires k in NameTable(names)
    ensures exists i ::
      0 <= i < |names| && names[i] == NameTable(names)[k] && forall j :: i < j < |names| ==> MethodName(names[j]) != k
  {
    var pairs := NamePairs(names);
    DictOfValueIsLast(pairs, k);
    var i :| 0 <= i < |pairs| && pairs[i] == (k, DictOf(pairs)[k]) &&
      forall j :: i < j < |pairs| ==> pairs[j].0 != k;
    assert names[i] == NameTable(names)[k];
    forall j | i < j < |names| ensures MethodName(names[j]) != k {
      assert pairs[j].0 == MethodName(names[j]);
    }
  }

  /** `DataLoader._datasets`: the spelling of every catalog name, mapped to
      a catalog name of that spelling. */
  function DataTable(cat: Catalog): (t: map<string, string>)
    ensures forall k :: k in t <==> exists n :: n in cat && MethodName(n) == k
    ensures forall k :: k in t ==> t[k] in cat && MethodName(t[k]) == k
  {
    var names := ListDatasets(cat);
    assert forall n :: n in cat ==> exists i :: 0 <= i < |names| && names[i] == n;
    NameTable(names)
  }

  /** `LocalDataLoader._datasets`: the same for the local names. */
  function LocalTable(cat: Catalog): (t: map<string, string>)
    ensures forall k :: k in t <==> exists n :: n in cat && cat[n].isLocal && MethodName(n) == k
    ensures forall k :: k in t ==> t[k] in cat && cat[t[k]].isLocal && MethodName(t[k]) == k
  {
    var local := ListLocalDatasets(cat);
    assert forall n :: n in cat && cat[n].isLocal ==> exists i :: 0 <= i < |local| && local[i] == n;
    NameTable(local)
  }

  /** `dir(data)`, as a set: the attribute spelling of every catalog name. */
  function Dir(cat: Catalog): (r: set<string>)
    ensures forall k :: k in r <==> exists n :: n in cat && MethodName(n) == k
  {
    DataTable(cat).Keys
  }

  /** `dir(local_data)`, as a set: the attribute spelling of every local
      name, some of what `dir(data)` offers. */
  function LocalDir(cat: Catalog): (r: set<string>)
    ensures forall k :: k in r <==> exists n :: n in cat && cat[n].isLocal && MethodName(n) == k
    ensures r <= Dir(cat)
  {
    LocalTable(cat).Keys
  }

  const NoDatasetPrefix := "No dataset named '"
  const NotLocalText := "' dataset is not available locally. To download it, use ``vega_datasets.data."

  function NoDatasetNamed(attr: string): string
  {
    NoDatasetPrefix + attr + "'"
  }

  function NotAvailableLocally(attr: string): string
  {
    "'" + attr + NotLocalText + attr + "()"
  }

  /** `DataLoader.__getattr__(attr)`. */
  function GetAttr(cat: Catalog, attr: string): (r: Result<Dataset, Err>)
    ensures r.Success? <==> exists n :: n in cat && MethodName(n) == attr
    ensures r.Success? ==>
      r.value.name in cat && r.value.methodname == attr && r.value.cls == Init(r.value.name)
    ensures r.Success? ==> r == InitDataset(cat, r.value.name)
    ensures r.Failure? ==> r.error == AttributeError(NoDatasetNamed(attr))
  {
    var t := DataTable(cat);
    if attr in t then InitDataset(cat, t[attr]) else Failure(AttributeError(NoDatasetNamed(attr)))
  }

  /** `LocalDataLoader.__getattr__(attr)`: a local dataset, ValueError for a
      catalog name that is not local, AttributeError for anything else. */
  function LocalGetAttr(cat: Catalog, attr: string): (r: Result<Dataset, Err>)
    ensures r.Success? <==> exists n :: n in cat && cat[n].isLocal && MethodName(n) == attr
    ensures r.Success? ==>
      r.value.name in cat && r.value.isLocal && r.value.methodname == attr && r.value.cls == Init(r.value.name)
    ensures r.Success? ==> r == InitDataset(cat, r.value.name)
    ensures r.Failure? && attr in Dir(cat) ==> r.error == ValueError(NotAvailableLocally(attr))
    ensures r.Failure? && attr !in Dir(cat) ==> r.error == AttributeError(NoDatasetNamed(attr))
  {
    var t := LocalTable(cat);
    if attr in t then InitDataset(cat, t[attr])
    else if attr in DataTable(cat) then Failure(ValueError(NotAvailableLocally(attr)))
    else Failure(AttributeError(NoDatasetNamed(attr)))
  }

  /** The two loader objects. */
  datatype Facade = Data | LocalData

  /** `loader.list_datasets()`. */
  function Listing(cat: Catalog, facade: Facade): (r: seq<string>)
    ensures facade == Data ==> forall n :: n in r <==> n in cat
    ensures facade == LocalData ==> forall n :: n in r <==> n in cat && cat[n].isLocal
    ensures StrictlySorted(r)
  {
    match facade
    case Data => ListDatasets(cat)
    case LocalData => ListLocalDatasets(cat)
  }

  /** `getattr(loader, attr)` for a dataset attribute: a dataset exactly when
      some name the loader lists has that spelling. */
  function Resolve(cat: Catalog, facade: Facade, attr: string): (r: Result<Dataset, Err>)
    ensures r.Success? <==> exists n :: n in Listing(cat, facade) && MethodName(n) == attr
    ensures r.Success? ==>
      r.value.name in Listing(cat, facade) && r.value.methodname == attr && r.value.cls == Init(r.value.name)
    ensures r.Success? ==> r == InitDataset(cat, r.value.name)
    ensures r.Failure? && (facade == Data || attr !in Dir(cat)) ==> r.error == AttributeError(NoDatasetNamed(attr))
    ensures r.Failure? && facade == LocalData && attr in Dir(cat) ==> r.error == ValueError(NotAvailableLocally(attr))
  {
    match facade
    case Data => GetAttr(cat, attr)
    case LocalData => LocalGetAttr(cat, attr)
  }

  /** What a loader call returns: the raw bytes' source, or the plan for parsing them. */
  datatype Output = RawBytes(source: Source) | Parsed(load: Load)

  /** The start of the TypeError Python raises for a keyword `raw` does not
      take; Python goes on with the quoted name of the first such keyword,
      which the message here leaves out. */
  const RawKeywordMessage := "Dataset.raw() got an unexpected keyword argument"

  /** The body of `loader(...)` once `getattr` has produced the dataset:
      `loader.raw(use_local=use_local, **kwargs)` for `return_raw`, otherwise
      `loader(use_local=use_local, **kwargs)`. `raw` takes no keyword
      arguments, so passing any with `return_raw` raises TypeError. */
  function Invoke(d: Dataset, returnRaw: bool, useLocal: bool, kwargs: Options,
                  bundled: set<string>): (r: Result<Output, Err>)
    ensures r.Success? ==> (r.value.RawBytes? <==> returnRaw)
    ensures returnRaw && kwargs != map[] ==> r == Failure(TypeError(RawKeywordMessage))
    ensures returnRaw && kwargs == map[] ==>
      (Raw(d, useLocal, bundled).Failure? ==> r == Failure(Raw(d, useLocal, bundled).error)) &&
      (Raw(d, useLocal, bundled).Success? ==> r == Success(RawBytes(Raw(d, useLocal, bundled).value)))
    ensures !returnRaw ==>
      (CallPlan(d, useLocal, kwargs, bundled).Failure? ==> r == Failure(CallPlan(d, useLocal, kwargs, bundled).error)) &&
      (CallPlan(d, useLocal, kwargs, bundled).Success? ==> r == Success(Parsed(CallPlan(d, useLocal, kwargs, bundled).value)))
  {
    if returnRaw then
      if kwargs != map[] then Failure(TypeError(RawKeywordMessage))
      else match Raw(d, useLocal, bundled)
        case Failure(e) => Failure(e)
        case Success(src) => Success(RawBytes(src))
    else match CallPlan(d, useLocal, kwargs, bundled)
      case Failure(e) => Failure(e)
      case Success(load) => Success(Parsed(load))
  }

  /** `loader(name, return_raw, use_local, **kwargs)`: `getattr` on the
      attribute spelling of `name`, whose error propagates, then `Invoke`. */
  function LoaderCall(cat: Catalog, facade: Facade, name: string, returnRaw: bool, useLocal: bool,
                      kwargs: Options, bundled: set<string>): (r: Result<Output, Err>)
    ensures Resolve(cat, facade, MethodName(name)).Failure? ==>
      r == Failure(Resolve(cat, facade, MethodName(name)).error)
    ensures Resolve(cat, facade, MethodName(name)).Success? ==>
      r == Invoke(Resolve(cat, facade, MethodName(name)).value, returnRaw, useLocal, kwargs, bundled)
  {
    match Resolve(cat, facade, MethodName(name))
    case Failure(e) => Failure(e)
    case Success(d) => Invoke(d, returnRaw, useLocal, kwargs, bundled)
  }

  /** An unknown name reaches `__getattr__` and raises its AttributeError,
      whichever way the call was meant to return. */
  lemma UnknownNameRaises(cat: Catalog, name: string, returnRaw: bool, useLocal: bool,
                          kwargs: Options, bundled: set<string>)
    requires forall n :: n in cat ==> MethodName(n) != MethodName(name)
    ensures LoaderCall(cat, Data, name, returnRaw, useLocal, kwargs, bundled) ==
            Failure(AttributeError(NoDatasetNamed(MethodName(name))))
  {
  }

  /** Every name a loader lists can be passed to that loader. */
  lemma ListedNamesResolve(cat: Catalog, facade: Facade, n: string)
    requires n in Listing(cat, facade)
    ensures Resolve(cat, facade, MethodName(n)).Success?
  {
  }

  /** `data(name)` and `data(name.replace("-", "_"))` do the same thing. */
  lemma CallNormalises(cat: Catalog, facade: Facade, name: string, returnRaw: bool, useLocal: bool,
                       kwargs: Options, bundled: set<string>)
    ensures LoaderCall(cat, facade, name, returnRaw, useLocal, kwargs, bundled) ==
            LoaderCall(cat, facade, MethodName(name), returnRaw, useLocal, kwargs, bundled)
  {
    MethodNameIdempotent(name);
  }

  /** No two catalog names have the same attribute spelling. */
  ghost predicate Unambiguous(cat: Catalog)
  {
    forall n, n' :: n in cat && n' in cat && MethodName(n) == MethodName(n') ==> n == n'
  }

  /** When the spellings do not collide, `data.<methodname>` is the dataset of that name. */
  lemma DataResolvesToName(cat: Catalog, n: string)
    requires Unambiguous(cat) && n in cat
    ensures GetAttr(cat, MethodName(n)) == InitDataset(cat, n)
  {
    var t := DataTable(cat);
    assert MethodName(n) in Dir(cat);
    assert t[MethodName(n)] in cat;
  }

  /** ... and so is `local_data.<methodname>` for a local dataset. */
  lemma LocalResolvesToName(cat: Catalog, n: string)
    requires Unambiguous(cat) && n in cat && cat[n].isLocal
    ensures LocalGetAttr(cat, MethodName(n)) == InitDataset(cat, n)
  {
    var t := LocalTable(cat);
    var local := ListLocalDatasets(cat);
    assert n in local;
    assert MethodName(n) in t;
    assert t[MethodName(n)] in cat;
  }

  /** `local_data.<methodname>` of a catalog dataset that is not local says so. */
  lemma LocalRefusesRemote(cat: Catalog, n: string)
    requires Unambiguous(cat) && n in cat && !cat[n].isLocal
    ensures LocalGetAttr(cat, MethodName(n)) == Failure(ValueError(NotAvailableLocally(MethodName(n))))
  {
    var a := MethodName(n);
    assert a in Dir(cat);
    forall n' | n' in cat && MethodName(n') == a ensures n' == n {
    }
    assert !LocalGetAttr(cat, a).Success?;
  }

  /** A strictly sorted listing holds each name at one position. */
  lemma SortedPositionUnique(s: seq<string>, i: nat, i': nat)
    requires StrictlySorted(s) && i < |s| && i' < |s| && s[i] == s[i']
    ensures i == i'
  {
    if i < i' {
      BelowIrreflexive(s[i]);
    } else if i' < i {
      BelowIrreflexive(s[i]);
    }
  }

  /** A listed name with no later name of its spelling holds its attribute. */
  lemma LastSpellingReachable(cat: Catalog, i: nat)
    requires i < |ListDatasets(cat)|
    requires forall j :: i < j < |ListDatasets(cat)| ==> MethodName(ListDatasets(cat)[j]) != MethodName(ListDatasets(cat)[i])
    ensures GetAttr(cat, MethodName(ListDatasets(cat)[i])).Success?
    ensures GetAttr(cat, MethodName(ListDatasets(cat)[i])).value.name == ListDatasets(cat)[i]
  {
    NameTableLastWins(ListDatasets(cat), i);
  }

  /** A name some attribute reaches has no later name of its spelling. */
  lemma ReachableIsLastSpelling(cat: Catalog, i: nat, attr: string)
    requires i < |ListDatasets(cat)|
    requires GetAttr(cat, attr).Success? && GetAttr(cat, attr).value.name == ListDatasets(cat)[i]
    ensures forall j :: i < j < |ListDatasets(cat)| ==> MethodName(ListDatasets(cat)[j]) != MethodName(ListDatasets(cat)[i])
  {
    var names := ListDatasets(cat);
    var t := DataTable(cat);
    assert t[attr] == names[i];
    NameTableValueIsLast(names, attr);
    var i' :| 0 <= i' < |names| && names[i'] == t[attr] &&
      forall j :: i' < j < |names| ==> MethodName(names[j]) != attr;
    SortedPositionUnique(names, i, i');
  }

  /** The i-th listed name can be loaded through `data` exactly when no
      later name in the listing has the same attribute spelling. */
  lemma DataReachable(cat: Catalog, i: nat)
    requires i < |ListDatasets(cat)|
    ensures (exists attr :: GetAttr(cat, attr).Success? && GetAttr(cat, attr).value.name == ListDatasets(cat)[i]) <==>
      forall j :: i < j < |ListDatasets(cat)| ==> MethodName(ListDatasets(cat)[j]) != MethodName(ListDatasets(cat)[i])
  {
    var names := ListDatasets(cat);
    if forall j :: i < j < |names| ==> MethodName(names[j]) != MethodName(names[i]) {
      LastSpellingReachable(cat, i);
    }
    if exists attr :: GetAttr(cat, attr).Success? && GetAttr(cat, attr).value.name == names[i] {
      var attr :| GetAttr(cat, attr).Success? && GetAttr(cat, attr).value.name == names[i];
      ReachableIsLastSpelling(cat, i, attr);
    }
  }

  /** For a local dataset the two loaders agree, whether called by name or
      for the raw bytes, and a bundled file is read from the package. */
  lemma LoadersAgreeOnLocal(cat: Catalog, n: string, returnRaw: bool, kwargs: Options, bundled: set<string>)
    requires Unambiguous(cat) && n in cat && cat[n].isLocal
    ensures LoaderCall(cat, Data, n, returnRaw, true, kwargs, bundled) ==
            LoaderCall(cat, LocalData, n, returnRaw, true, kwargs, bundled)
    ensures "_data/" + cat[n].filename in bundled && returnRaw && kwargs == map[] ==>
            LoaderCall(cat, Data, n, returnRaw, true, kwargs, bundled) == Success(RawBytes(Bundled("_data/" + cat[n].filename)))
  {
    DataResolvesToName(cat, n);
    LocalResolvesToName(cat, n);
  }

  /** A catalog with two names that differ only in '-' against '_'. */
  function Colliding(e: Entry, e': Entry): Catalog
  {
    map["a-b" := e, "a_b" := e']
  }

  lemma CollidingListing(e: Entry, e': Entry)
    ensures ListDatasets(Colliding(e, e')) == ["a-b", "a_b"]
  {
    var sorted := ["a-b", "a_b"];
    assert Below("a-b", "a_b") by {
      assert "a-b"[0] == "a_b"[0] && "a-b"[1] < "a_b"[1];
    }
    assert StrictlySorted(sorted);
    assert Elements(sorted) == Colliding(e, e').Keys;
    SortedUnique(ListDatasets(Colliding(e, e')), sorted);
  }

  lemma HyphenSpelling()
    ensures MethodName("a-b") == "a_b" && MethodName("a_b") == "a_b"
  {
    assert MethodName("a-b")[0] == 'a' && MethodName("a-b")[1] == '_' && MethodName("a-b")[2] == 'b';
    assert MethodName("a_b")[0] == 'a' && MethodName("a_b")[1] == '_' && MethodName("a_b")[2] == 'b';
  }

  /** Names that all share one spelling leave one key, held by the last name. */
  lemma NameTableOneSpelling(names: seq<string>, a: string)
    requires names != []
    requires forall i :: 0 <= i < |names| ==> MethodName(names[i]) == a
    ensures NameTable(names).Keys == {a}
    ensures NameTable(names)[a] == names[|names| - 1]
  {
    NameTableLastWins(names, |names| - 1);
  }

  lemma CollidingNames()
    ensures NameTable(["a-b", "a_b"]).Keys == {"a_b"}
    ensures NameTable(["a-b", "a_b"])["a_b"] == "a_b"
  {
    var names := ["a-b", "a_b"];
    HyphenSpelling();
    assert forall i :: 0 <= i < |names| ==> MethodName(names[i]) == "a_b" by {
      assert names[0] == "a-b" && names[1] == "a_b";
    }
    NameTableOneSpelling(names, "a_b");
  }

  lemma CollidingTable(e: Entry, e': Entry)
    ensures DataTable(Colliding(e, e')).Keys == {"a_b"}
    ensures DataTable(Colliding(e, e'))["a_b"] == "a_b"
  {
    CollidingListing(e, e');
    CollidingNames();
  }

  /** When two names collide, the later one in sorted order takes the
      attribute ... */
  lemma CollisionKeepsLater(e: Entry, e': Entry)
    ensures GetAttr(Colliding(e, e'), "a_b") == InitDataset(Colliding(e, e'), "a_b")
  {
    CollidingTable(e, e');
  }

  lemma CollidingSpelling(e: Entry, e': Entry, n: string)
    requires n in Colliding(e, e')
    ensures MethodName(n) == "a_b"
  {
    HyphenSpelling();
  }

  /** ... and the other cannot be loaded through `data` at all. */
  lemma CollisionHidesName(e: Entry, e': Entry)
    ensures forall attr :: GetAttr(Colliding(e, e'), attr).Success? ==>
      GetAttr(Colliding(e, e'), attr).value.name == "a_b"
  {
    var cat := Colliding(e, e');
    CollisionKeepsLater(e, e');
    forall attr | GetAttr(cat, attr).Success? ensures GetAttr(cat, attr).value.name == "a_b" {
      var n :| n in cat && MethodName(n) == attr;
      CollidingSpelling(e, e', n);
    }
  }
}
