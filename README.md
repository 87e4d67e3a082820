# binary-agents sync, modelled in Dafny

`binary-agents` copies the Markdown sub-agent definitions bundled with the package into a
`.claude/agents` directory. The directory is either in the current project (local install) or
in the user's home directory (global install, `--global`). This project models the sync module,
`src/sync.js`, and proves what it does:

- **Listing.** `fetchSubagentFiles` keeps the directory entries that end in `.md` and contain a
  hyphen, in directory order. A listing failure becomes the error
  `Failed to read agents directory: <cause>`.
- **Frontmatter check.** `validateYamlFrontmatter` tests `/^---\n([\s\S]*?)\n---/`. The model
  reads it as a plain string predicate: the text starts with `---` and a line feed, and the four
  characters `\n---` occur at index 4 or later. The closing dashes need not end a line, and
  nothing after them is looked at.
- **Reading a file.** `readAgentFile` returns the text, or fails with the read error, or fails
  with `Invalid YAML frontmatter in <name>`.
- **basic/advanced split.** Advanced agents are the names starting with `advanced-`. The `filter`
  option `'basic'` or `'advanced'` narrows the files to copy. Any other value, including the
  default `null`, keeps them all. `listSubagents` shows the same split.
- **Destination.** `ensureAgentsDirectory` resolves `<HOME or USERPROFILE>/.claude/agents` or
  `<cwd>/.claude/agents`. It creates the directory and its ancestors if it is absent.
  `saveFile` writes the text verbatim and overwrites any file of the same name.
- **Sync.** `syncSubagents` copies the selected files one at a time. Each name goes into
  `results.success` or `results.failed`; one failure never stops the rest. The returned
  `success` is `failed.length === 0`. When listing or directory creation fails, it returns
  `{ success: false, error }` early and writes nothing.

Layout, one module per component:

| file | module | what it holds |
|---|---|---|
| `wrappers.dfy` | `Wrappers` | `Option`, `Result` |
| `text.dfy` | `Text` | `startsWith`, `endsWith` |
| `seqs.dfy` | `Seqs` | `Array.prototype.filter` and order preservation (`Subsequence`) |
| `frontmatter.dfy` | `Frontmatter` | the regular expression as a predicate, and its lazy scan |
| `filesystem.dfy` | `FileSystem` | the destination disk: class `Disk` with `access`, `mkdir -p`, `writeFile` |
| `source.dfy` | `Source` | the bundled agents directory (a value), `fetchSubagentFiles`, `readAgentFile` |
| `selection.dfy` | `Selection` | the basic/advanced filter and `listSubagents` |
| `destination.dfy` | `Destination` | path resolution, `ensureAgentsDirectory`, `saveFile` |
| `sync.dfy` | `Sync`, `SyncProperties` | the copy loop, `syncSubagents`, and the properties of a whole run |

How the environment is modelled:

- The bundled directory never changes during a sync, so it is a value. It holds the outcome of
  `fs.readdir`, and per name the outcome of `fs.readFile`: either the text or the error message.
- The destination is a `Disk` object. It holds the directories that exist, each with the files
  directly inside it. Its `failures` map lists the paths where the system refuses to create or
  write, each with the message Node would report.
- `process.env.HOME`, `process.env.USERPROFILE` and `process.cwd()` are the parameter `Env`.
- The `Disk` class has three methods, one per `fs` call: `Access`, `MakeDirectory` and
  `WriteFile`. The sync's own functions are module-level methods that take a `Disk`:
  `Destination.EnsureAgentsDirectory`, `Destination.SaveFile`, `Sync.CopyOne` (one iteration of
  the copy loop), `Sync.CopyFiles` (the loop) and `Sync.SyncSubagents`.
- Three of them are proved equal to a pure function: `Sync.SyncSubagents` to `Sync.SyncSpec`,
  `Destination.EnsureAgentsDirectory` to `Destination.Provision`, and `Sync.CopyFiles` to
  `Sync.Tally` with `Sync.Written`. `Sync.CopyOne` is tied to `Sync.CopyOutcome`.
  `Destination.SaveFile` states its result and the new disk directly, through
  `FileSystem.WriteError`. The lemmas in `SyncProperties` are proved about those functions.

What the code does where a reader might expect otherwise:

- The command line describes the tool as syncing "agents and commands" and accepts
  `--agents` and `--commands` (bin/cli.js:16-19). `syncSubagents` ignores both flags: it copies
  sub-agent files only, with no slash-command category and no clean step before copying.
- The closing `---` of the frontmatter need not sit on a line of its own. The pattern accepts
  `---x` and any other text after the dashes.
- A file named without a hyphen, such as `broken.md`, is never listed, so a sync never reports
  it as failed, whatever its content. `SyncProperties.MixedDirectoryExample` uses
  `broken-agent.md` to show the failure path.

## Model

| member | source | states |
|---|---|---|
| `Seqs.FilterSpec` | src/sync.js:21-24 | `.filter` keeps exactly the entries that pass, each as often as it occurs, in their original order (a subsequence) |
| `Frontmatter.FindClosing` | src/sync.js:36 | the lazy `[\s\S]*?` finds the first index at or after `from` where `\n---` starts, or reports that there is none |
| `Frontmatter.ValidateYamlFrontmatter` | src/sync.js:35-38 | the regex test is true iff the text starts with `---\n` and `\n---` occurs at some index i >= 4 |
| `Frontmatter.TrailingTextIgnored` | src/sync.js:36 | anything appended to a valid text keeps it valid: nothing after the closing dashes is examined |
| `Frontmatter.ValidIsLong` | src/sync.js:36 | a valid text has at least 8 characters: the opening and the closing delimiters cannot overlap |
| `Frontmatter.ClosingNeedNotEndLine` | src/sync.js:36 | `---\nname: reviewer\n---x` is accepted: the closing dashes need not end a line |
| `Frontmatter.EmptyBlockAccepted` | src/sync.js:36 | `---\n\n---` (an empty block) is accepted |
| `Frontmatter.SharedLineFeedRejected` | src/sync.js:36 | `---\n---` is rejected: the opening line feed cannot start the closing delimiter |
| `Frontmatter.CarriageReturnRejected` | src/sync.js:36 | text opening with `---\r\n` (Windows line ends) is rejected |
| `Source.FetchSubagentFiles` | src/sync.js:16-30 | the listing is exactly the entries ending in `.md` and containing `-`, with multiplicities, in directory order; a readdir failure becomes `Failed to read agents directory: <cause>` |
| `Source.ReadFile` | src/sync.js:44-45 | `fs.readFile` of a bundled name gives that file's stored outcome, its text or its read error; a name the directory does not hold fails with `ENOENT` |
| `Source.ReadAgentFile` | src/sync.js:43-53 | succeeds iff the file reads and has frontmatter, and then returns its text unchanged; a read error passes through; a text without frontmatter fails with `Invalid YAML frontmatter in <name>` |
| `Selection.SelectFiles` | src/sync.js:113-122 | `'basic'` keeps exactly the names without the `advanced-` prefix, `'advanced'` exactly those with it, any other value (the default `null` included) keeps the whole list; a kept name appears as often as in the list, and the selection keeps listing order |
| `Selection.Partition` | src/sync.js:194-195 | the basic and advanced selections split the list: disjoint, multisets add up to the list's, sizes add up to its length |
| `Selection.ListSubagents` | src/sync.js:185-207 | the listing command shows exactly the basic and exactly the advanced sub-agent files, each group in listing order; the two groups together are the listing (as multisets), and the total is the listing's length, which is the sum of both groups; a listing failure is reported |
| `FileSystem.MakeDirs` | src/sync.js:74 | `mkdir` with `recursive: true` makes the path and every ancestor exist, keeps every existing directory and its files, and adds only empty directories along the path |
| `FileSystem.Disk.Access` | src/sync.js:72 | the model's `fs.access` resolves exactly when the path is an existing directory (regular files are not checked, see "## Left out") |
| `FileSystem.Disk.MakeDirectory` | src/sync.js:74 | `fs.mkdir(p, { recursive: true })` succeeds and changes nothing when `p` exists; otherwise it fails with the system's message for a refused `p` and changes nothing, or succeeds and the disk becomes `MakeDirs` of the old one |
| `FileSystem.Disk.WriteFile` | src/sync.js:85 | `fs.writeFile` fails exactly as `WriteError` says (missing directory, a directory in the way, a refused path), and then changes nothing; otherwise only `dir/name` changes, to the given text |
| `Destination.AgentsDirPath` | src/sync.js:59-69 | local mode gives `cwd/.claude/agents`; global mode gives `HOME/.claude/agents`, or `USERPROFILE/.claude/agents` when HOME is unset or empty; when neither is set, it fails with the `TypeError` that `path.join` throws |
| `Destination.Provision` | src/sync.js:59-78 | on success the resolved directory exists; an existing directory is used as is and nothing changes; a missing one is created with all its ancestors, unless the system refuses it, in which case the outcome is the refusal's message and nothing changes; no existing directory or file is altered |
| `Destination.EnsureAgentsDirectory` | src/sync.js:59-78 | the method's result and the new disk state are exactly those given by `Provision` |
| `Destination.SaveFile` | src/sync.js:83-87 | on success the file `dir/name` holds exactly the given text, an existing file of that name is overwritten, and every other entry is unchanged; it returns the file's path; it fails when the directory is missing, when a directory of that name is in the way (`EISDIR`), or when the system refuses the path, and then nothing changes and the system's message is returned |
| `Sync.CopyOutcome` | src/sync.js:147-159 | one loop iteration succeeds iff the file reads, has frontmatter and can be written; the text written is the source text verbatim; a read or frontmatter failure records that error, and a refused write records the write's own message |
| `Sync.CopyOne` | src/sync.js:147-159 | one iteration's result is `CopyOutcome`; on success only the file `agentsDir/name` changes, to the source text, and on failure the disk is unchanged |
| `Sync.TallyAccounts` | src/sync.js:139-160 | `success` is exactly the copied files and `failed` exactly the others, each with its own error, both in iteration order; their sizes add up to the number of files tried |
| `Sync.LoopStep` | src/sync.js:144-160 | unfolding lemma for the loop invariant: one more iteration appends the next file to `success` or, with its error, to `failed`, and writes it exactly when it was copied |
| `Sync.WrittenExactly` | src/sync.js:144-160 | the loop writes exactly the copied files, each with its source text |
| `Sync.CopyFiles` | src/sync.js:139-160 | the copy loop returns the results given by `Tally`, and the agents directory becomes its old content overwritten by `Written` |
| `Sync.SyncSubagents` | src/sync.js:92-180 | the report and the new disk state are exactly those given by `SyncSpec` |
| `SyncProperties.AbortWritesNothing` | src/sync.js:105-136 | a listing failure aborts with the wrapped message, and a directory failure aborts with its own message; in both cases nothing is written; otherwise the loop runs |
| `SyncProperties.FinishedRun` | src/sync.js:138-179 | unfolding lemma: when a sync finishes, the listing and the directory both succeeded, and the run is the copy loop over the selected files against the provisioned directory |
| `SyncProperties.SyncAccountsForEveryFile` | src/sync.js:139-179 | every selected file is in exactly one of `success` and `failed`, and both keep listing order; their sizes add up; the sync reports success iff `failed` is empty, iff every selected file was copied |
| `SyncProperties.SyncCopiesVerbatim` | src/sync.js:147-155 | every copied file sits in the agents directory under its own name, with its source text, which has frontmatter |
| `SyncProperties.SyncRejectsInvalidFile` | src/sync.js:147-159 | a selected file that reads but lacks frontmatter is recorded as failed with `Invalid YAML frontmatter in <name>` and is not in `success`; it is not written: the agents directory holds that name only if it held it before, with the same content |
| `SyncProperties.SyncNeverDeletes` | src/sync.js:144-160 | no directory or file disappears; every file except the ones this run copied keeps its content |
| `SyncProperties.SyncIdempotent` | src/sync.js:92-180 | running the same sync again on the disk it produced gives the same report and the same disk |
| `SyncProperties.ExampleListing` | src/sync.js:21-24 | `README.md` (no hyphen) is dropped from the listing; `code-reviewer.md` and `broken-agent.md` are kept |
| `SyncProperties.ExampleFrontmatter` | src/sync.js:36 | the example's `---\nname: a\n---\n` is accepted and `name: b\n` is rejected |
| `SyncProperties.ExampleOutcomes` | src/sync.js:147-159 | in the example, the file with frontmatter is copied and the one without fails with its message |
| `SyncProperties.ExampleCopyLoop` | src/sync.js:144-160 | in the example, the loop records one success and one failure and writes only the valid file |
| `SyncProperties.ExampleProvision` | src/sync.js:59-78 | a local sync in a working directory without `.claude` resolves and creates `cwd/.claude/agents`, empty, with nothing in the way of its files |
| `SyncProperties.ExampleLoopInCreatedDirectory` | src/sync.js:144-160 | in the example, the loop over the created directory records one success and one failure and leaves only the valid file there |
| `SyncProperties.MixedDirectoryExample` | src/sync.js:92-180 | a local sync of the example reports `success: false` with one success and one failure, and creates `cwd/.claude/agents` holding only `code-reviewer.md` |

## Left out

- Console output, `chalk` colours, `ora` spinners and the summary text: presentation only.
- The `clean` step and the commands category: neither exists in `src/sync.js`.
- `bin/cli.js`: argument parsing, help and `process.exit(1)` on failure. Its `agents` and
  `commands` flags are ignored by `syncSubagents`, and it never passes a `filter`.
- Asynchrony: every `await` is one sequential step, so order is what the model keeps.
- `path.join` normalisation: a path is a sequence of segments, and the home or working
  directory is one opaque segment. So the model does not see that an empty `USERPROFILE` makes
  Node resolve `.claude/agents` against the working directory.
- Node error message texts. Three errors are fixed texts without the syscall and path Node
  appends: `ENOENT: no such file or directory` (a read of a name the bundled directory does not
  hold, or a write into a missing directory), `EISDIR: illegal operation on a directory` (a
  write over a directory), and the `TypeError` `path.join` throws when no home directory is set.
  The bundled directory's listing and read errors are whatever `AgentsDir` holds. The messages
  of a refused `mkdir` or `writeFile` come from the `failures` map.
- `FileSystem.Disk.Access`: Node's `fs.access` also resolves for a regular file. The model's
  check looks at directories only; the consequence is on the next line.
- `Destination.EnsureAgentsDirectory`: `Disk.Access` checks only the directories. When a regular
  file named `agents` sits in `.claude`, Node's `fs.access` succeeds, `mkdir` is skipped, and
  every write then fails with `ENOTDIR`. The model instead creates a directory of the same name
  beside the file and reports the files as copied.
- `FileSystem.MakeDirs`: `mkdir -p` is refused only on the target path, and a refused `mkdir`
  changes nothing. The model does not capture ancestors created before the refusal.
- Text encoding: `readFile` and `writeFile` use `'utf-8'` (src/sync.js:45, 85), so the model's
  file contents are the decoded text. Malformed byte sequences decode to U+FFFD, so such a file
  is not copied byte for byte. "Verbatim" in `Destination.SaveFile` and
  `SyncProperties.SyncCopiesVerbatim` holds for the decoded text.
- The `failures` map is supplied by the caller: which paths the system refuses (permissions,
  a full disk) is not derived from anything else in the model.
- Regular expressions in general: only this one pattern is modelled, as a direct predicate.
  The capture group is not used by the code and is not modelled.
