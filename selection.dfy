/**
 * The basic/advanced split of the sub-agent files: advanced agents are the files whose name
 * starts with `advanced-`. The sync uses it to narrow what it copies; the listing command uses
 * it to display the two groups.
 */
module Selection {
  import opened Wrappers
  import opened Text
  import opened Seqs
  import opened Source

  const AdvancedPrefix: string := "advanced-"

  predicate IsAdvanced(name: string)
  {
    StartsWith(name, AdvancedPrefix)
  }

  predicate IsBasic(name: string)
  {
    !IsAdvanced(name)
  }

  /** `allFiles.filter(f => !f.startsWith('advanced-'))` */
  function BasicFiles(files: seq<string>): seq<string>
  {
    Filter(files, IsBasic)
  }

  /** `allFiles.filter(f => f.startsWith('advanced-'))` */
  function AdvancedFiles(files: seq<string>): seq<string>
  {
    Filter(files, IsAdvanced)
  }

  /**
   * The files `syncSubagents` copies for its `filter` option: only `'basic'` and `'advanced'`
   * narrow the list; any other value, and the default `null` (here `None`), keeps all of it.
   */
  function SelectFiles(files: seq<string>, filter: Option<string>): (r: seq<string>)
    ensures filter == Some("basic") ==> forall f :: f in r <==> f in files && !IsAdvanced(f)
    ensures filter == Some("advanced") ==> forall f :: f in r <==> f in files && IsAdvanced(f)
    ensures filter == Some("basic") ==> forall f :: multiset(r)[f] == if IsAdvanced(f) then 0 else multiset(files)[f]
    ensures filter == Some("advanced") ==> forall f :: multiset(r)[f] == if IsAdvanced(f) then multiset(files)[f] else 0
    ensures filter != Some("basic") && filter != Some("advanced") ==> r == files
    ensures Subsequence(r, files)
  {
    FilterSpec(files, IsBasic);
    FilterSpec(files, IsAdvanced);
    if filter == Some("basic") then BasicFiles(files)
    else if filter == Some("advanced") then AdvancedFiles(files)
    else
      SubsequenceReflexive(files);
      files
  }

  /**
   * The basic and the advanced selection split the list: every file lands in exactly one of them,
   * as often as it occurs, and the two sizes add up to the whole.
   */
  lemma Partition(files: seq<string>)
    ensures multiset(BasicFiles(files)) + multiset(AdvancedFiles(files)) == multiset(files)
    ensures forall f :: !(f in BasicFiles(files) && f in AdvancedFiles(files))
    ensures |BasicFiles(files)| + |AdvancedFiles(files)| == |files|
  {
    FilterSpec(files, IsBasic);
    FilterSpec(files, IsAdvanced);
    var b, a := multiset(BasicFiles(files)), multiset(AdvancedFiles(files));
    assert forall f :: (b + a)[f] == multiset(files)[f];
    assert b + a == multiset(files);
    assert |b + a| == |b| + |a|;
  }

  /** What `listSubagents` displays: the two groups and the total. */
  datatype Catalogue = Catalogue(basic: seq<string>, advanced: seq<string>, total: nat)

  /** `listSubagents`, without the printing: the listing split by the `advanced-` prefix, or the listing error. */
  function ListSubagents(dir: AgentsDir): (r: Result<Catalogue, string>)
    ensures r.Failure? <==> dir.entries.Failure?
    ensures r.Failure? ==> r.error == ReadDirErrorPrefix + dir.entries.error
    ensures r.Success? ==> r.value.total == |FetchSubagentFiles(dir).value| == |r.value.basic| + |r.value.advanced|
    ensures r.Success? ==> multiset(r.value.basic) + multiset(r.value.advanced) == multiset(FetchSubagentFiles(dir).value)
    ensures r.Success? ==> Subsequence(r.value.basic, FetchSubagentFiles(dir).value)
    ensures r.Success? ==> Subsequence(r.value.advanced, FetchSubagentFiles(dir).value)
    ensures r.Success? ==> forall f :: f in r.value.basic <==> f in dir.entries.value && IsSubagentFile(f) && !IsAdvanced(f)
    ensures r.Success? ==> forall f :: f in r.value.advanced <==> f in dir.entries.value && IsSubagentFile(f) && IsAdvanced(f)
  {
    match FetchSubagentFiles(dir)
    case Failure(e) => Failure(e)
    case Success(files) =>
      Partition(files);
      FilterSpec(files, IsBasic);
      FilterSpec(files, IsAdvanced);
      Success(Catalogue(BasicFiles(files), AdvancedFiles(files), |files|))
  }
}
