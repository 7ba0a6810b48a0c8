// The per-sample input manifests (`vspipeline_inputs.json`): each lists, per
// sample, the files of four types a pipeline task produced. Merging many
// manifests is an order-keeping union without repeats; adding one file to a
// manifest appends it only if it is not listed yet.
module Manifest {
  import opened Results
  import opened Dedup
  import opened JsonDoc

  datatype FileType = Multiverse | Cnv | Bnd | Region

  /** The key a file type is stored under. */
  function TypeName(t: FileType): string {
    match t
    case Multiverse => "multiverse"
    case Cnv => "cnv"
    case Bnd => "bnd"
    case Region => "region"
  }

  const TypeNames: seq<string> := ["multiverse", "cnv", "bnd", "region"]

  /** The file type a key names, if it names one. */
  function TypeOf(name: string): (r: Option<FileType>)
    ensures r.Some? <==> name in TypeNames
    ensures r.Some? ==> TypeName(r.value) == name
  {
    if name == "multiverse" then Some(Multiverse)
    else if name == "cnv" then Some(Cnv)
    else if name == "bnd" then Some(Bnd)
    else if name == "region" then Some(Region)
    else None
  }

  /** The four file lists of one sample; a list missing from a manifest reads as empty. */
  datatype FileLists = FileLists(multiverse: seq<string>, cnv: seq<string>, bnd: seq<string>, region: seq<string>)

  const NoFiles := FileLists([], [], [], [])

  function Files(f: FileLists, t: FileType): seq<string> {
    match t
    case Multiverse => f.multiverse
    case Cnv => f.cnv
    case Bnd => f.bnd
    case Region => f.region
  }

  function WithFiles(f: FileLists, t: FileType, paths: seq<string>): (r: FileLists)
    ensures Files(r, t) == paths && forall u :: u != t ==> Files(r, u) == Files(f, u)
  {
    match t
    case Multiverse => f.(multiverse := paths)
    case Cnv => f.(cnv := paths)
    case Bnd => f.(bnd := paths)
    case Region => f.(region := paths)
  }

  /** The `samples` entry of one manifest. */
  type Samples = map<string, FileLists>

  /** A manifest to merge; `None` stands for one that could not be read and is skipped. */
  type Input = Option<Samples>

  /** The paths one input lists for a sample and type. */
  function InputPaths(d: Input, s: string, t: FileType): seq<string> {
    if d.Some? && s in d.value then Files(d.value[s], t) else []
  }

  /** The paths all inputs list for a sample and type, input after input. */
  function AllPaths(docs: seq<Input>, s: string, t: FileType): seq<string>
    decreases |docs|
  {
    if docs == [] then [] else AllPaths(docs[..|docs| - 1], s, t) + InputPaths(docs[|docs| - 1], s, t)
  }

  /** Every sample some readable input mentions. */
  ghost function SamplesOf(docs: seq<Input>): set<string> {
    set i, s | 0 <= i < |docs| && docs[i].Some? && s in docs[i].value :: s
  }

  /** `if file_path not in merged[sample][type]: append`, over one input list. */
  method MergeList(acc: seq<string>, paths: seq<string>) returns (r: seq<string>)
    ensures r == AppendAll(acc, paths)
  {
    r := acc;
    for k := 0 to |paths|
      invariant r == AppendAll(acc, paths[..k])
    {
      AppendAllStep(acc, paths, k);
      if paths[k] !in r {
        r := r + [paths[k]];
      }
    }
    assert paths[..|paths|] == paths;
  }

  /** The loop over the four file types for one sample of one input. */
  method MergeSample(acc: FileLists, info: FileLists) returns (r: FileLists)
    ensures forall t :: Files(r, t) == AppendAll(Files(acc, t), Files(info, t))
  {
    var order := [Multiverse, Cnv, Bnd, Region];
    r := acc;
    for k := 0 to |order|
      invariant forall t :: Files(r, t) == if Rank(t) < k then AppendAll(Files(acc, t), Files(info, t)) else Files(acc, t)
    {
      assert Rank(order[k]) == k;
      var merged := MergeList(Files(r, order[k]), Files(info, order[k]));
      r := WithFiles(r, order[k], merged);
    }
  }

  /** The position of a file type in the order the source visits the types. */
  function Rank(t: FileType): nat {
    match t
    case Multiverse => 0
    case Cnv => 1
    case Bnd => 2
    case Region => 3
  }

  /** The loop over the samples of one readable input. */
  method MergeInput(merged: Samples, doc: Samples) returns (r: Samples)
    ensures r.Keys == merged.Keys + doc.Keys
    ensures forall s, t :: s in r ==>
      Files(r[s], t) == AppendAll(if s in merged then Files(merged[s], t) else [], InputPaths(Some(doc), s, t))
  {
    r := merged;
    var rest := doc.Keys;
    while rest != {}
      invariant rest <= doc.Keys
      invariant r.Keys == merged.Keys + (doc.Keys - rest)
      invariant forall s, t :: s in r ==>
        Files(r[s], t) == AppendAll(if s in merged then Files(merged[s], t) else [], if s in rest then [] else InputPaths(Some(doc), s, t))
      decreases rest
    {
      var s :| s in rest;
      var start := if s in r then r[s] else NoFiles;
      var lists := MergeSample(start, doc[s]);
      r := r[s := lists];
      rest := rest - {s};
    }
  }

  /** `_merge_vspipeline_json_files` on already-read inputs. */
  method MergeManifests(docs: seq<Input>) returns (merged: Samples)
    ensures merged.Keys == SamplesOf(docs)
    ensures forall s, t :: s in merged ==> Files(merged[s], t) == Dedup.Dedup(AllPaths(docs, s, t))
  {
    merged := map[];
    for i := 0 to |docs|
      invariant merged.Keys == SamplesOf(docs[..i])
      invariant forall s, t :: s in merged ==> Files(merged[s], t) == Dedup.Dedup(AllPaths(docs[..i], s, t))
    {
      assert docs[..i + 1][..i] == docs[..i];
      if docs[i].Some? {
        ghost var before := merged;
        merged := MergeInput(merged, docs[i].value);
        forall s, t | s in merged ensures Files(merged[s], t) == Dedup.Dedup(AllPaths(docs[..i + 1], s, t)) {
          var earlier := AllPaths(docs[..i], s, t);
          assert AllPaths(docs[..i + 1], s, t) == earlier + InputPaths(docs[i], s, t);
          AppendAllConcat([], earlier, InputPaths(docs[i], s, t));
          if s !in before {
            NotListedNoPaths(docs[..i], s, t);
            assert AppendAll([], earlier) == [];
          }
        }
      } else {
        forall s, t | s in merged ensures Files(merged[s], t) == Dedup.Dedup(AllPaths(docs[..i + 1], s, t)) {
          assert AllPaths(docs[..i + 1], s, t) == AllPaths(docs[..i], s, t) + [];
          assert AllPaths(docs[..i], s, t) + [] == AllPaths(docs[..i], s, t);
        }
      }
      SamplesOfStep(docs, i);
    }
    assert docs[..|docs|] == docs;
  }

  lemma SamplesOfStep(docs: seq<Input>, i: nat)
    requires i < |docs|
    ensures SamplesOf(docs[..i + 1]) == SamplesOf(docs[..i]) + (if docs[i].Some? then docs[i].value.Keys else {})
  {
    var pre, next := docs[..i], docs[..i + 1];
    forall s | s in SamplesOf(next) ensures s in SamplesOf(pre) || (docs[i].Some? && s in docs[i].value) {
      var k :| 0 <= k < |next| && next[k].Some? && s in next[k].value;
      if k < i {
        assert pre[k] == next[k];
      }
    }
    forall s | s in SamplesOf(pre) ensures s in SamplesOf(next) {
      var k :| 0 <= k < |pre| && pre[k].Some? && s in pre[k].value;
      assert next[k] == pre[k];
    }
    if docs[i].Some? {
      forall s | s in docs[i].value ensures s in SamplesOf(next) {
        assert next[i] == docs[i];
      }
    }
  }

  lemma {:induction false} NotListedNoPaths(docs: seq<Input>, s: string, t: FileType)
    requires s !in SamplesOf(docs)
    ensures AllPaths(docs, s, t) == []
    decreases |docs|
  {
    if docs != [] {
      var init := docs[..|docs| - 1];
      forall x | x in SamplesOf(init) ensures x in SamplesOf(docs) {
        var k :| 0 <= k < |init| && init[k].Some? && x in init[k].value;
        assert docs[k] == init[k];
      }
      NotListedNoPaths(init, s, t);
      assert forall k :: 0 <= k < |docs| && docs[k].Some? ==> s !in docs[k].value;
    }
  }

  /**
   * Each merged list lists every path of every input for its sample and type,
   * once, in the order of first occurrence across the inputs.
   */
  lemma MergedListContents(docs: seq<Input>, s: string, t: FileType)
    ensures NoDuplicates(Dedup.Dedup(AllPaths(docs, s, t)))
    ensures forall p :: p in Dedup.Dedup(AllPaths(docs, s, t)) <==> p in AllPaths(docs, s, t)
    ensures forall i, j :: 0 <= i < j < |Dedup.Dedup(AllPaths(docs, s, t))| ==>
      FirstIndex(AllPaths(docs, s, t), Dedup.Dedup(AllPaths(docs, s, t))[i]) < FirstIndex(AllPaths(docs, s, t), Dedup.Dedup(AllPaths(docs, s, t))[j])
  {
    var xs := AllPaths(docs, s, t);
    DedupContents(xs);
    forall i, j | 0 <= i < j < |Dedup.Dedup(xs)| ensures FirstIndex(xs, Dedup.Dedup(xs)[i]) < FirstIndex(xs, Dedup.Dedup(xs)[j]) {
      DedupFirstSeenOrder(xs, i, j);
    }
  }

  /** A path is listed for a sample and type exactly when some readable input lists it there. */
  lemma {:induction false} AllPathsMembers(docs: seq<Input>, s: string, t: FileType, p: string)
    ensures p in AllPaths(docs, s, t) <==> exists i :: 0 <= i < |docs| && p in InputPaths(docs[i], s, t)
    decreases |docs|
  {
    if docs != [] {
      var init := docs[..|docs| - 1];
      AllPathsMembers(init, s, t, p);
      if exists i :: 0 <= i < |docs| && p in InputPaths(docs[i], s, t) {
        var i :| 0 <= i < |docs| && p in InputPaths(docs[i], s, t);
        if i < |docs| - 1 {
          assert init[i] == docs[i];
        }
      }
      if exists i :: 0 <= i < |init| && p in InputPaths(init[i], s, t) {
        var i :| 0 <= i < |init| && p in InputPaths(init[i], s, t);
        assert init[i] == docs[i];
      }
    }
  }

  /** What appending a file to a manifest reports. */
  datatype AppendOutcome = Added | AlreadyListed | InvalidFileType | MissingFileList

  /** One sample's entry in a stored manifest: type name to paths; a stored entry may lack a list. */
  type StoredSamples = map<string, map<string, seq<string>>>

  /** The four empty lists a new sample entry starts with. */
  const EmptyEntry: map<string, seq<string>> := map["multiverse" := [], "cnv" := [], "bnd" := [], "region" := []]

  /** The samples after adding `path` as a `fileType` file of `sample`, and the outcome. */
  function AppendFile(samples: StoredSamples, sample: string, path: string, fileType: string): (r: (StoredSamples, AppendOutcome))
    ensures fileType !in TypeNames ==> r == (samples, InvalidFileType)
    ensures r.1 == MissingFileList <==> fileType in TypeNames && sample in samples && fileType !in samples[sample]
    ensures r.1 == InvalidFileType || r.1 == MissingFileList ==> r.0 == samples
    ensures r.1 == Added || r.1 == AlreadyListed ==>
      && r.0.Keys == samples.Keys + {sample}
      && fileType in r.0[sample]
      && r.0[sample][fileType] == AppendNew(if sample in samples then samples[sample][fileType] else [], path)
      && (r.1 == AlreadyListed <==> sample in samples && path in samples[sample][fileType])
  {
    if fileType !in TypeNames then (samples, InvalidFileType)
    else
      var entry := if sample in samples then samples[sample] else EmptyEntry;
      if fileType !in entry then (samples, MissingFileList)
      else
        var list := entry[fileType];
        if path in list then (samples[sample := entry], AlreadyListed)
        else (samples[sample := entry[fileType := list + [path]]], Added)
  }

  /** Appending the same file twice changes nothing the second time. */
  lemma AppendIdempotent(samples: StoredSamples, sample: string, path: string, fileType: string)
    requires AppendFile(samples, sample, path, fileType).1 == Added
    ensures var once := AppendFile(samples, sample, path, fileType).0;
      AppendFile(once, sample, path, fileType) == (once, AlreadyListed)
  {
    var once := AppendFile(samples, sample, path, fileType).0;
    assert once[sample := once[sample]] == once;
  }

  /** Other samples, and the other lists of the same sample, are left as they were; an existing sample gains no list. */
  lemma AppendTouchesOneList(samples: StoredSamples, sample: string, path: string, fileType: string)
    ensures var r := AppendFile(samples, sample, path, fileType).0;
      && (forall other :: other in samples && other != sample ==> other in r && r[other] == samples[other])
      && (sample in samples ==> sample in r && r[sample].Keys == samples[sample].Keys)
      && (sample in samples ==> forall k :: k in samples[sample] && k != fileType ==> r[sample][k] == samples[sample][k])
  {
  }

  /** A sample new to the manifest gets all four lists, three of them empty. */
  lemma NewSampleHasAllLists(samples: StoredSamples, sample: string, path: string, fileType: string)
    requires sample !in samples && fileType in TypeNames
    ensures var r := AppendFile(samples, sample, path, fileType);
      r.1 == Added && r.0[sample].Keys == {"multiverse", "cnv", "bnd", "region"} &&
      r.0[sample][fileType] == [path] &&
      forall k :: k in r.0[sample] && k != fileType ==> r.0[sample][k] == []
  {
  }

  /** A manifest document being updated: its `samples` entry and its other top-level entries. */
  class ManifestDocument {
    var samples: StoredSamples
    var others: map<string, Json>

    constructor(samples: StoredSamples, others: map<string, Json>)
      ensures this.samples == samples && this.others == others
    {
      this.samples := samples;
      this.others := others;
    }

    /** The in-memory update of `update_vspipeline_json`. */
    method Append(sample: string, path: string, fileType: string) returns (outcome: AppendOutcome)
      modifies this
      ensures (samples, outcome) == AppendFile(old(samples), sample, path, fileType)
      ensures others == old(others)
    {
      if fileType !in TypeNames {
        return InvalidFileType;
      }
      var entry := if sample in samples then samples[sample] else EmptyEntry;
      if fileType !in entry {
        return MissingFileList;
      }
      var list := entry[fileType];
      if path !in list {
        samples := samples[sample := entry[fileType := list + [path]]];
        outcome := Added;
      } else {
        samples := samples[sample := entry];
        outcome := AlreadyListed;
      }
    }
  }
}
