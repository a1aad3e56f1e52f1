/** The dataset catalog of vega_datasets/core.py: the merge of the three
    bundled JSON files into one name -> entry map (`_load_dataset_info`), the
    sorted listings and the checked lookup (`_infodict`). */
module Catalog {
  import opened Wrappers
  import opened Strings
  import opened Sorting

  /** One value of datasets.json: `{"filename": ..., "format": ...}`. */
  datatype Record = Record(filename: string, format: string)

  /** One value of dataset_info.json; each key may be absent. */
  datatype Description = Description(description: Option<string>, references: Option<seq<string>>)

  /** One entry of the merged catalog, `Dataset._dataset_info[name]`. */
  datatype Entry = Entry(
    filename: string,
    format: string,
    isLocal: bool,
    description: Option<string>,
    references: Option<seq<string>>)

  type Catalog = map<string, Entry>

  /** `info[name]` once the first loop has set its `is_local` key. */
  function Annotated(name: string, rec: Record, localDatasets: map<string, string>): Entry
  {
    Entry(rec.filename, rec.format, name in localDatasets, None, None)
  }

  /** `entry.update(desc)`: every key the description carries replaces the entry's. */
  function Update(e: Entry, d: Description): Entry
  {
    e.(description := if d.description.Some? then d.description else e.description,
       references := if d.references.Some? then d.references else e.references)
  }

  /** The entry of `name` once both loops of `_load_dataset_info` have run. */
  function MergedEntry(name: string, rec: Record, descriptions: map<string, Description>,
                       localDatasets: map<string, string>): Entry
  {
    var e := Annotated(name, rec, localDatasets);
    if name in descriptions then Update(e, descriptions[name]) else e
  }

  /** The catalog `_load_dataset_info` returns when it does not fail. */
  function Merge(datasets: map<string, Record>, descriptions: map<string, Description>,
                 localDatasets: map<string, string>): (r: Catalog)
    ensures r.Keys == datasets.Keys
    ensures forall n :: n in r ==> r[n].isLocal == (n in localDatasets)
    ensures forall n :: n in r ==>
      r[n].filename == datasets[n].filename && r[n].format == datasets[n].format
    ensures forall n :: n in r && n !in descriptions ==>
      r[n] == Entry(datasets[n].filename, datasets[n].format, n in localDatasets, None, None)
    ensures forall n :: n in r && n in descriptions ==>
      r[n].description == descriptions[n].description &&
      r[n].references == descriptions[n].references
  {
    map n | n in datasets :: MergedEntry(n, datasets[n], descriptions, localDatasets)
  }

  /** `_load_dataset_info`, given the three decoded JSON objects: it marks every
      entry of datasets.json with `is_local`, then updates each entry named in
      dataset_info.json with its description record. A description for a name
      that datasets.json lacks raises KeyError. */
  method LoadDatasetInfo(datasets: map<string, Record>, descriptions: map<string, Description>,
                         localDatasets: map<string, string>) returns (r: Result<Catalog, Err>)
    ensures r.Success? <==> descriptions.Keys <= datasets.Keys
    ensures r.Success? ==> r.value == Merge(datasets, descriptions, localDatasets)
    ensures r.Failure? ==> r.error.KeyError? && r.error.key in descriptions && r.error.key !in datasets
  {
    var info := MarkLocal(datasets, localDatasets);
    r := ApplyDescriptions(info, datasets, descriptions, localDatasets);
  }

  /** The first loop of `_load_dataset_info`: `info[name]["is_local"] = name in local_datasets`. */
  method MarkLocal(datasets: map<string, Record>, localDatasets: map<string, string>)
    returns (info: map<string, Entry>)
    ensures info.Keys == datasets.Keys
    ensures forall n :: n in info ==> info[n] == Annotated(n, datasets[n], localDatasets)
  {
    info := map[];
    var todo := datasets.Keys;
    while todo != {}
      invariant todo <= datasets.Keys
      invariant info.Keys == datasets.Keys - todo
      invariant forall n :: n in info ==> info[n] == Annotated(n, datasets[n], localDatasets)
      decreases |todo|
    {
      var name :| name in todo;
      info := info[name := Annotated(name, datasets[name], localDatasets)];
      todo := todo - {name};
    }
  }

  /** The second loop of `_load_dataset_info`: `info[name].update(descriptions[name])`
      for every described name, which raises KeyError for a name `info` lacks. */
  method ApplyDescriptions(info0: map<string, Entry>, datasets: map<string, Record>,
                           descriptions: map<string, Description>, localDatasets: map<string, string>)
    returns (r: Result<Catalog, Err>)
    requires info0.Keys == datasets.Keys
    requires forall n :: n in info0 ==> info0[n] == Annotated(n, datasets[n], localDatasets)
    ensures r.Success? <==> descriptions.Keys <= datasets.Keys
    ensures r.Success? ==> r.value == Merge(datasets, descriptions, localDatasets)
    ensures r.Failure? ==> r.error.KeyError? && r.error.key in descriptions && r.error.key !in datasets
  {
    var info := info0;
    var pending := descriptions.Keys;
    while pending != {}
      invariant pending <= descriptions.Keys
      invariant descriptions.Keys - pending <= datasets.Keys
      invariant info.Keys == datasets.Keys
      invariant forall n :: n in info && n in pending ==> info[n] == Annotated(n, datasets[n], localDatasets)
      invariant forall n :: n in info && n !in pending ==>
        info[n] == MergedEntry(n, datasets[n], descriptions, localDatasets)
      decreases |pending|
    {
      var name :| name in pending;
      if name !in info {
        return Failure(KeyError(name));
      }
      info := info[name := Update(info[name], descriptions[name])];
      pending := pending - {name};
    }
    MergeOf(info, datasets, descriptions, localDatasets);
    return Success(info);
  }

  /** A map holding the merged entry of every dataset is the merged catalog. */
  lemma MergeOf(info: map<string, Entry>, datasets: map<string, Record>,
                descriptions: map<string, Description>, localDatasets: map<string, string>)
    requires info.Keys == datasets.Keys
    requires forall n :: n in info ==> info[n] == MergedEntry(n, datasets[n], descriptions, localDatasets)
    ensures info == Merge(datasets, descriptions, localDatasets)
  {
    var merged := Merge(datasets, descriptions, localDatasets);
    assert forall n :: n in info ==> info[n] == merged[n];
  }

  /** `Dataset.list_datasets()`: every catalog name once, in increasing order. */
  function ListDatasets(cat: Catalog): (r: seq<string>)
    ensures StrictlySorted(r)
    ensures forall n :: n in r <==> n in cat
  {
    var r := SortedNames(cat.Keys);
    assert forall n :: n in r <==> n in Elements(r);
    r
  }

  /** The names whose entry is marked local. */
  function LocalNames(cat: Catalog): set<string>
  {
    set n | n in cat && cat[n].isLocal
  }

  /** `Dataset.list_local_datasets()`: the local names once each, in increasing order. */
  function ListLocalDatasets(cat: Catalog): (r: seq<string>)
    ensures StrictlySorted(r)
    ensures forall n :: n in r <==> n in cat && cat[n].isLocal
  {
    var r := SortedNames(LocalNames(cat));
    assert forall n :: n in r <==> n in Elements(r);
    r
  }

  /** The local listing is the full listing with the non-local names dropped,
      so it is a subsequence of it. */
  lemma LocalListingIsFilteredListing(cat: Catalog)
    ensures ListLocalDatasets(cat) == Filter(ListDatasets(cat), LocalNames(cat))
    ensures IsSubsequence(ListLocalDatasets(cat), ListDatasets(cat))
  {
    assert cat.Keys * LocalNames(cat) == LocalNames(cat);
    SortedNamesFilter(cat.Keys, LocalNames(cat));
  }

  const ListHint := "list_datasets()"
  const NoSuchPrefix := "No such dataset "
  const ExistsText := " exists"
  const UseText := ", use "
  const ListTail := " to get a list of available datasets."

  /** The message `_infodict` raises for an unknown name. */
  function NoSuchDataset(name: string): (msg: string)
    ensures StartsWith(msg, NoSuchPrefix + name + ExistsText)
    ensures Contains(msg, ListHint)
  {
    var head := NoSuchPrefix + name + ExistsText;
    var msg := head + UseText + ListHint + ListTail;
    assert msg[..|head|] == head;
    assert StartsWith(msg[|head + UseText|..], ListHint);
    msg
  }

  /** `Dataset._infodict(name)`: the stored entry, or ValueError for an unknown name. */
  function InfoDict(cat: Catalog, name: string): (r: Result<Entry, Err>)
    ensures name in cat ==> r == Success(cat[name])
    ensures name !in cat ==>
      r.Failure? && r.error.ValueError? &&
      StartsWith(r.error.msg, NoSuchPrefix + name + ExistsText) && Contains(r.error.msg, ListHint)
  {
    if name in cat then Success(cat[name]) else Failure(ValueError(NoSuchDataset(name)))
  }
}
