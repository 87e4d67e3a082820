/**
 * The bundled `agents` directory the sync reads from. It is never written, so it is a value:
 * the outcome of listing it (`fs.readdir`) and, per file name, the outcome of reading it
 * (`fs.readFile`), each either the text or the message of the error Node raises.
 */
module Source {
  import opened Wrappers
  import opened Text
  import opened Seqs
  import opened Frontmatter
  import FileSystem

  datatype AgentsDir = AgentsDir(
    entries: Result<seq<string>, string>,
    files: map<string, Result<string, string>>)

  const MarkdownExtension: string := ".md"
  const ReadDirErrorPrefix: string := "Failed to read agents directory: "
  const InvalidFrontmatterPrefix: string := "Invalid YAML frontmatter in "

  /** A sub-agent definition: a Markdown file whose name contains a hyphen. */
  predicate IsSubagentFile(name: string)
  {
    EndsWith(name, MarkdownExtension) && '-' in name
  }

  /** `fetchSubagentFiles`: the sub-agent files among the directory's entries, or the wrapped listing error. */
  function FetchSubagentFiles(dir: AgentsDir): (r: Result<seq<string>, string>)
    ensures r.Failure? <==> dir.entries.Failure?
    ensures r.Failure? ==> r.error == ReadDirErrorPrefix + dir.entries.error
    ensures r.Success? ==> forall name :: name in r.value <==> name in dir.entries.value && IsSubagentFile(name)
    ensures r.Success? ==> Subsequence(r.value, dir.entries.value)
    ensures r.Success? ==> forall name ::
              multiset(r.value)[name] == if IsSubagentFile(name) then multiset(dir.entries.value)[name] else 0
  {
    match dir.entries
    case Failure(e) => Failure(ReadDirErrorPrefix + e)
    case Success(names) =>
      FilterSpec(names, IsSubagentFile);
      Success(Filter(names, IsSubagentFile))
  }

  /** `fs.readFile` on a name of the directory. */
  function ReadFile(dir: AgentsDir, name: string): (r: Result<string, string>)
    ensures name in dir.files ==> r == dir.files[name]
    ensures name !in dir.files ==> r == Failure(FileSystem.NoSuchFile)
  {
    if name in dir.files then dir.files[name] else Failure(FileSystem.NoSuchFile)
  }

  /** `readAgentFile`: the file's text when it can be read and carries frontmatter, else the error raised. */
  function ReadAgentFile(dir: AgentsDir, name: string): (r: Result<string, string>)
    ensures r.Success? <==> ReadFile(dir, name).Success? && HasFrontmatter(ReadFile(dir, name).value)
    ensures r.Success? ==> r.value == ReadFile(dir, name).value
    ensures ReadFile(dir, name).Failure? ==> r == ReadFile(dir, name)
    ensures ReadFile(dir, name).Success? && !HasFrontmatter(ReadFile(dir, name).value) ==>
      r == Failure(InvalidFrontmatterPrefix + name)
  {
    match ReadFile(dir, name)
    case Failure(e) => Failure(e)
    case Success(content) =>
      if !ValidateYamlFrontmatter(content) then Failure(InvalidFrontmatterPrefix + name)
      else Success(content)
  }
}
