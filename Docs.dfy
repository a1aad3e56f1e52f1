/** The parts of `Dataset._make_docstring` that depend on the catalog entry:
    the description paragraph, the numbered reference list under its
    "References" header, and the sentence about bundling. */
module Docs {
  import opened Wrappers
  import opened Strings

  const DefaultDescription := "This dataset is described at https://github.com/vega/vega-datasets/"

  /** `info.get("description", "")`, replaced by the default text when empty. */
  function DescriptionText(description: Option<string>): (r: string)
    ensures r != []
    ensures description.Some? && description.value != [] ==> r == description.value
    ensures !(description.Some? && description.value != []) ==> r == DefaultDescription
  {
    if description.Some? && description.value != [] then description.value else DefaultDescription
  }

  /** `".. [{0}] ".format(i + 1) + ref`: the label of the i-th reference, counted from one. */
  function ReferenceItem(i: nat, ref: string): string
  {
    ".. [" + NatToString(i + 1) + "] " + ref
  }

  /** The labelled references, in their order. */
  function ReferenceItems(refs: seq<string>): (r: seq<string>)
    ensures |r| == |refs|
    ensures forall i :: 0 <= i < |refs| ==> r[i] == ReferenceItem(i, refs[i])
    decreases |refs|
  {
    if refs == [] then []
    else ReferenceItems(refs[..|refs| - 1]) + [ReferenceItem(|refs| - 1, refs[|refs| - 1])]
  }

  /** The label of every reference carries its one-based position, which can
      be read back from its digits. */
  lemma ReferenceNumbering(refs: seq<string>, i: nat)
    requires i < |refs|
    ensures StartsWith(ReferenceItems(refs)[i], ".. [" + NatToString(i + 1) + "] ")
    ensures ParseNat(NatToString(i + 1)) == i + 1
  {
    var tag := ".. [" + NatToString(i + 1) + "] ";
    assert ReferenceItems(refs)[i] == tag + refs[i];
    assert (tag + refs[i])[..|tag|] == tag;
    ParseNatToString(i + 1);
  }

  /** The references joined by blank lines start with the first one and so,
      when there is one, are not blank. */
  lemma JoinedReferences(refs: seq<string>)
    ensures refs == [] ==> Join("\n\n", ReferenceItems(refs)) == []
    ensures refs != [] ==>
      StartsWith(Join("\n\n", ReferenceItems(refs)), ReferenceItem(0, refs[0])) &&
      !IsBlank(Join("\n\n", ReferenceItems(refs)))
  {
    if refs != [] {
      var items := ReferenceItems(refs);
      var joined := Join("\n\n", items);
      assert items[0] == ReferenceItem(0, refs[0]);
      assert items[0][0] == '.';
      assert joined[0] == items[0][0];
    }
  }

  lemma StartsWithAfter(h: string, s: string, p: string)
    requires StartsWith(s, p)
    ensures StartsWith(h + s, h + p)
  {
    assert (h + s)[..|h + p|] == h + s[..|p|];
  }

  const ReferencesHeader := "References\n    ----------\n"

  /** The `reference_info` block: the labelled references separated by blank
      lines, headed by "References" unless the joined text is blank. */
  function ReferenceInfo(references: Option<seq<string>>): (r: string)
    ensures references.None? || references.value == [] ==> r == []
    ensures references.Some? && references.value != [] ==>
      StartsWith(r, ReferencesHeader + ReferenceItem(0, references.value[0]))
    ensures references.Some? && references.value != [] ==>
      r == ReferencesHeader + Join("\n\n", ReferenceItems(references.value))
  {
    var refs := if references.Some? then references.value else [];
    var joined := Join("\n\n", ReferenceItems(refs));
    JoinedReferences(refs);
    if IsBlank(joined) then joined
    else
      StartsWithAfter(ReferencesHeader, joined, if refs == [] then [] else ReferenceItem(0, refs[0]));
      ReferencesHeader + joined
  }

  const BundledText := "This dataset is bundled with vega_datasets; it can be loaded without web access."
  const NotBundledText := "This dataset is not bundled with vega_datasets; it requires web access to load."

  /** The `bundle_info` sentence for a dataset: the bundled one exactly for a
      local dataset. */
  function BundleInfo(isLocal: bool): (r: string)
    ensures isLocal <==> r == BundledText
    ensures !isLocal <==> r == NotBundledText
  {
    assert |BundledText| != |NotBundledText|;
    if isLocal then BundledText else NotBundledText
  }
}
