/**
 * `syncSubagents`: list the bundled sub-agent files, narrow them by the `filter` option, make sure
 * the agents directory exists, then copy the files one at a time, recording each as copied or
 * failed. A failing file never stops the others; nothing is ever deleted.
 */
module Sync {
  import opened Wrappers
  import opened Seqs
  import opened Frontmatter
  import opened FileSystem
  import opened Source
  import opened Selection
  import opened Destination

  /** The options `syncSubagents` reads; `filter` defaults to `null` (`None`) and `global` to `false`. */
  datatype Options = Options(filter: Option<string>, global: bool)

  datatype FailedFile = FailedFile(filename: string, error: string)

  /** `results`: the names copied and the failures, each in the order the files were tried. */
  datatype Results = Results(success: seq<string>, failed: seq<FailedFile>)

  /** `{ success: false, error }` on an early return, `{ success, results }` after the copy loop. */
  datatype SyncReport = Aborted(error: string) | Finished(success: bool, results: Results)

  /** What every iteration of the copy loop sees: the source, the directories that exist, the refused paths, the target. */
  datatype Copier = Copier(source: AgentsDir, existing: set<Path>, failures: map<Path, string>, agentsDir: Path)

  /** One iteration of the copy loop: the text that gets written, or the message recorded for the file. */
  function CopyOutcome(c: Copier, filename: string): (r: Result<string, string>)
    ensures r.Success? <==> ReadAgentFile(c.source, filename).Success? &&
                            WriteError(c.existing, c.failures, c.agentsDir, filename).None?
    ensures r.Success? ==> r.value == ReadFile(c.source, filename).value && HasFrontmatter(r.value)
    ensures ReadAgentFile(c.source, filename).Failure? ==> r == ReadAgentFile(c.source, filename)
    ensures ReadAgentFile(c.source, filename).Success? && WriteError(c.existing, c.failures, c.agentsDir, filename).Some? ==>
              r == Failure(WriteError(c.existing, c.failures, c.agentsDir, filename).value)
  {
    match ReadAgentFile(c.source, filename)
    case Failure(e) => Failure(e)
    case Success(content) =>
      match WriteError(c.existing, c.failures, c.agentsDir, filename)
      case Some(e) => Failure(e)
      case None => Success(content)
  }

  function Copied(c: Copier): string -> bool
  {
    filename => CopyOutcome(c, filename).Success?
  }

  function Rejected(c: Copier): string -> bool
  {
    filename => CopyOutcome(c, filename).Failure?
  }

  function FailedNames(failed: seq<FailedFile>): seq<string>
  {
    seq(|failed|, i requires 0 <= i < |failed| => failed[i].filename)
  }

  /** The results of running the copy loop over `filenames`, built in iteration order. */
  function Tally(c: Copier, filenames: seq<string>): Results
  {
    if filenames == [] then Results([], [])
    else
      var last := filenames[|filenames| - 1];
      var before := Tally(c, filenames[..|filenames| - 1]);
      match CopyOutcome(c, last)
      case Success(_) => Results(before.success + [last], before.failed)
      case Failure(e) => Results(before.success, before.failed + [FailedFile(last, e)])
  }

  /** The files the copy loop over `filenames` writes into the agents directory, by name. */
  function Written(c: Copier, filenames: seq<string>): map<string, string>
  {
    if filenames == [] then map[]
    else
      var last := filenames[|filenames| - 1];
      var before := Written(c, filenames[..|filenames| - 1]);
      match CopyOutcome(c, last)
      case Success(content) => before[last := content]
      case Failure(_) => before
  }

  /**
   * Every file is recorded exactly once: the copied ones in `success`, the others in `failed` with
   * the message of their own error, both in iteration order.
   */
  lemma {:induction false} TallyAccounts(c: Copier, filenames: seq<string>)
    ensures Tally(c, filenames).success == Filter(filenames, Copied(c))
    ensures FailedNames(Tally(c, filenames).failed) == Filter(filenames, Rejected(c))
    ensures forall f :: f in Tally(c, filenames).failed ==> CopyOutcome(c, f.filename) == Failure(f.error)
    ensures |Tally(c, filenames).success| + |Tally(c, filenames).failed| == |filenames|
  {
    if filenames != [] {
      var init, last := filenames[..|filenames| - 1], filenames[|filenames| - 1];
      assert filenames == init + [last];
      TallyAccounts(c, init);
      FilterSnoc(init, last, Copied(c));
      FilterSnoc(init, last, Rejected(c));
      var before := Tally(c, init);
      if CopyOutcome(c, last).Failure? {
        var failed := before.failed + [FailedFile(last, CopyOutcome(c, last).error)];
        assert FailedNames(failed) == FailedNames(before.failed) + [last];
      }
    }
  }

  /** The written files are exactly the copied ones, each with its source text. */
  lemma {:induction false} WrittenExactly(c: Copier, filenames: seq<string>)
    ensures forall name :: name in Written(c, filenames) <==> name in filenames && CopyOutcome(c, name).Success?
    ensures forall name :: name in Written(c, filenames) ==> Written(c, filenames)[name] == CopyOutcome(c, name).value
  {
    if filenames != [] {
      var init, last := filenames[..|filenames| - 1], filenames[|filenames| - 1];
      assert filenames == init + [last];
      WrittenExactly(c, init);
    }
  }

  /** The files `syncSubagents` attempts, given the listing succeeded. */
  function FilesToSync(src: AgentsDir, opts: Options): seq<string>
    requires FetchSubagentFiles(src).Success?
  {
    SelectFiles(FetchSubagentFiles(src).value, opts.filter)
  }

  /** The report of a sync and the directories it leaves on disk. */
  datatype SyncRun = SyncRun(report: SyncReport, dirs: map<Path, map<string, string>>)

  /** `syncSubagents(options)` on a disk with directories `dirs` that refuses the paths in `failures`. */
  function SyncSpec(src: AgentsDir, opts: Options, env: Env, dirs: map<Path, map<string, string>>, failures: map<Path, string>): SyncRun
  {
    match FetchSubagentFiles(src)
    case Failure(e) => SyncRun(Aborted(e), dirs)
    case Success(allFiles) =>
      var filesToSync := SelectFiles(allFiles, opts.filter);
      var provisioned := Provision(opts.global, env, dirs, failures);
      match provisioned.outcome
      case Failure(e) => SyncRun(Aborted(e), dirs)
      case Success(agentsDir) =>
        var c := Copier(src, provisioned.dirs.Keys, failures, agentsDir);
        var results := Tally(c, filesToSync);
        SyncRun(Finished(|results.failed| == 0, results),
                provisioned.dirs[agentsDir := provisioned.dirs[agentsDir] + Written(c, filesToSync)])
  }

  /** One more iteration extends the results and the written files by the next file's outcome. */
  lemma LoopStep(c: Copier, filenames: seq<string>, i: nat)
    requires i < |filenames|
    ensures var before := Tally(c, filenames[..i]);
            Tally(c, filenames[..i + 1]) ==
              match CopyOutcome(c, filenames[i])
              case Success(_) => Results(before.success + [filenames[i]], before.failed)
              case Failure(e) => Results(before.success, before.failed + [FailedFile(filenames[i], e)])
    ensures Written(c, filenames[..i + 1]) ==
              match CopyOutcome(c, filenames[i])
              case Success(content) => Written(c, filenames[..i])[filenames[i] := content]
              case Failure(_) => Written(c, filenames[..i])
  {
    assert filenames[..i + 1][..i] == filenames[..i];
  }

  /** Writing one more file into a directory already overwritten by `w` is overwriting by `w` extended with it. */
  lemma OverwriteAfterMerge(existing: map<string, string>, w: map<string, string>, name: string, content: string)
    ensures (existing + w)[name := content] == existing + w[name := content]
  {
  }

  /** One iteration of the copy loop: read and validate `filename`, then save it into the agents directory. */
  method CopyOne(disk: Disk, src: AgentsDir, agentsDir: Path, filename: string) returns (outcome: Result<string, string>)
    requires agentsDir in disk.dirs
    modifies disk
    ensures outcome == CopyOutcome(Copier(src, old(disk.dirs).Keys, disk.failures, agentsDir), filename)
    ensures outcome.Success? ==> disk.dirs == old(disk.dirs)[agentsDir := old(disk.dirs)[agentsDir][filename := outcome.value]]
    ensures outcome.Failure? ==> disk.dirs == old(disk.dirs)
  {
    var content := ReadAgentFile(src, filename);
    if content.Failure? {
      return Failure(content.error);
    }
    var saved := SaveFile(disk, agentsDir, filename, content.value);
    if saved.Failure? {
      return Failure(saved.error);
    }
    return Success(content.value);
  }

  /**
   * The copy loop of `syncSubagents`: each file is read, validated and written under its own name,
   * and recorded as copied or failed; a failure does not stop the loop.
   */
  method CopyFiles(disk: Disk, src: AgentsDir, agentsDir: Path, filesToSync: seq<string>) returns (results: Results)
    requires agentsDir in disk.dirs
    modifies disk
    ensures results == Tally(Copier(src, old(disk.dirs).Keys, disk.failures, agentsDir), filesToSync)
    ensures disk.dirs == old(disk.dirs)[agentsDir := old(disk.dirs)[agentsDir] +
                           Written(Copier(src, old(disk.dirs).Keys, disk.failures, agentsDir), filesToSync)]
  {
    ghost var start := disk.dirs;
    ghost var c := Copier(src, start.Keys, disk.failures, agentsDir);
    var success: seq<string> := [];
    var failed: seq<FailedFile> := [];
    var i := 0;
    assert start[agentsDir] + Written(c, filesToSync[..i]) == start[agentsDir];
    while i < |filesToSync|
      invariant 0 <= i <= |filesToSync|
      invariant Results(success, failed) == Tally(c, filesToSync[..i])
      invariant disk.dirs == start[agentsDir := start[agentsDir] + Written(c, filesToSync[..i])]
    {
      var filename := filesToSync[i];
      LoopStep(c, filesToSync, i);
      ghost var w := Written(c, filesToSync[..i]);
      assert disk.dirs.Keys == start.Keys;
      var outcome := CopyOne(disk, src, agentsDir, filename);
      if outcome.Success? {
        OverwriteAfterMerge(start[agentsDir], w, filename, outcome.value);
        success := success + [filename];
      } else {
        failed := failed + [FailedFile(filename, outcome.error)];
      }
      i := i + 1;
    }
    assert filesToSync[..i] == filesToSync;
    results := Results(success, failed);
  }

  /** `syncSubagents(options)`, the console output left out. */
  method SyncSubagents(disk: Disk, src: AgentsDir, opts: Options, env: Env) returns (report: SyncReport)
    modifies disk
    ensures SyncRun(report, disk.dirs) == SyncSpec(src, opts, env, old(disk.dirs), disk.failures)
  {
    var allFiles := FetchSubagentFiles(src);
    if allFiles.Failure? {
      return Aborted(allFiles.error);
    }

    var filesToSync := SelectFiles(allFiles.value, opts.filter);

    var agentsDir := EnsureAgentsDirectory(disk, opts.global, env);
    if agentsDir.Failure? {
      return Aborted(agentsDir.error);
    }

    var results := CopyFiles(disk, src, agentsDir.value, filesToSync);
    report := Finished(|results.failed| == 0, results);
  }
}

module SyncProperties {
  import opened Wrappers
  import opened Seqs
  import opened Frontmatter
  import opened FileSystem
  import opened Source
  import opened Selection
  import opened Destination
  import opened Sync

  /** An early return writes nothing; the listing error comes wrapped, the directory error as thrown. */
  lemma AbortWritesNothing(src: AgentsDir, opts: Options, env: Env, dirs: map<Path, map<string, string>>, failures: map<Path, string>)
    ensures SyncSpec(src, opts, env, dirs, failures).report.Aborted? ==> SyncSpec(src, opts, env, dirs, failures).dirs == dirs
    ensures src.entries.Failure? ==>
              SyncSpec(src, opts, env, dirs, failures).report == Aborted(ReadDirErrorPrefix + src.entries.error)
    ensures src.entries.Success? && Provision(opts.global, env, dirs, failures).outcome.Failure? ==>
              SyncSpec(src, opts, env, dirs, failures).report == Aborted(Provision(opts.global, env, dirs, failures).outcome.error)
    ensures src.entries.Success? && Provision(opts.global, env, dirs, failures).outcome.Success? ==>
              SyncSpec(src, opts, env, dirs, failures).report.Finished?
  {
  }

  /** The copy loop's view of a sync whose listing and directory both succeeded. */
  function RunCopier(src: AgentsDir, opts: Options, env: Env, dirs: map<Path, map<string, string>>, failures: map<Path, string>): Copier
    requires Provision(opts.global, env, dirs, failures).outcome.Success?
  {
    var provisioned := Provision(opts.global, env, dirs, failures);
    Copier(src, provisioned.dirs.Keys, failures, provisioned.outcome.value)
  }

  /** Once the listing and the directory succeed, the sync is the copy loop over the selection. */
  lemma ReadyRun(src: AgentsDir, opts: Options, env: Env, dirs: map<Path, map<string, string>>, failures: map<Path, string>,
                 allFiles: seq<string>, agentsDir: Path)
    requires FetchSubagentFiles(src) == Success(allFiles)
    requires Provision(opts.global, env, dirs, failures).outcome == Success(agentsDir)
    ensures var provisioned := Provision(opts.global, env, dirs, failures);
            var c := Copier(src, provisioned.dirs.Keys, failures, agentsDir);
            var results := Tally(c, SelectFiles(allFiles, opts.filter));
            SyncSpec(src, opts, env, dirs, failures) ==
              SyncRun(Finished(|results.failed| == 0, results),
                      provisioned.dirs[agentsDir := provisioned.dirs[agentsDir] + Written(c, SelectFiles(allFiles, opts.filter))])
  {
  }

  /** A finished sync is the copy loop run over the selected files against the provisioned directory. */
  lemma FinishedRun(src: AgentsDir, opts: Options, env: Env, dirs: map<Path, map<string, string>>, failures: map<Path, string>)
    requires SyncSpec(src, opts, env, dirs, failures).report.Finished?
    ensures FetchSubagentFiles(src).Success? && Provision(opts.global, env, dirs, failures).outcome.Success?
    ensures var provisioned := Provision(opts.global, env, dirs, failures);
            var agentsDir := provisioned.outcome.value;
            var c := RunCopier(src, opts, env, dirs, failures);
            var files := FilesToSync(src, opts);
            && c.agentsDir == agentsDir
            && SyncSpec(src, opts, env, dirs, failures) ==
                 SyncRun(Finished(|Tally(c, files).failed| == 0, Tally(c, files)),
                         provisioned.dirs[agentsDir := provisioned.dirs[agentsDir] + Written(c, files)])
  {
  }

  /**
   * After the loop, every selected file is in exactly one of `success` and `failed`, both lists
   * keep the listing order, and the sync reports success exactly when nothing failed, that is
   * when every selected file was valid and written.
   */
  lemma SyncAccountsForEveryFile(src: AgentsDir, opts: Options, env: Env, dirs: map<Path, map<string, string>>, failures: map<Path, string>)
    requires SyncSpec(src, opts, env, dirs, failures).report.Finished?
    ensures FetchSubagentFiles(src).Success? && Provision(opts.global, env, dirs, failures).outcome.Success?
    ensures var report := SyncSpec(src, opts, env, dirs, failures).report;
            var files := FilesToSync(src, opts);
            && |report.results.success| + |report.results.failed| == |files|
            && Subsequence(report.results.success, files)
            && Subsequence(FailedNames(report.results.failed), files)
            && (forall name :: name in report.results.success ==> name in files)
            && (forall name :: name in FailedNames(report.results.failed) ==> name in files)
            && (forall name :: name in files ==> (name in report.results.success <==> name !in FailedNames(report.results.failed)))
            && (report.success <==> report.results.failed == [])
            && (report.success <==> forall name :: name in files ==> CopyOutcome(RunCopier(src, opts, env, dirs, failures), name).Success?)
  {
    FinishedRun(src, opts, env, dirs, failures);
    var c := RunCopier(src, opts, env, dirs, failures);
    var files := FilesToSync(src, opts);
    TallyAccounts(c, files);
    FilterSpec(files, Copied(c));
    FilterSpec(files, Rejected(c));
    var results := Tally(c, files);
    if results.failed != [] {
      assert results.failed[0].filename in FailedNames(results.failed);
    }
  }

  /** Every copied file now sits in the agents directory under its own name with its source text, which carries frontmatter. */
  lemma SyncCopiesVerbatim(src: AgentsDir, opts: Options, env: Env, dirs: map<Path, map<string, string>>, failures: map<Path, string>)
    requires SyncSpec(src, opts, env, dirs, failures).report.Finished?
    ensures AgentsDirPath(opts.global, env).Success?
    ensures var run := SyncSpec(src, opts, env, dirs, failures);
            var agentsDir := AgentsDirPath(opts.global, env).value;
            && agentsDir in run.dirs
            && forall name :: name in run.report.results.success ==>
                 && ReadFile(src, name).Success?
                 && name in run.dirs[agentsDir]
                 && run.dirs[agentsDir][name] == ReadFile(src, name).value
                 && HasFrontmatter(run.dirs[agentsDir][name])
  {
    FinishedRun(src, opts, env, dirs, failures);
    var c := RunCopier(src, opts, env, dirs, failures);
    var files := FilesToSync(src, opts);
    TallyAccounts(c, files);
    WrittenExactly(c, files);
    FilterSpec(files, Copied(c));
  }

  /** A selected file that reads but lacks frontmatter is reported with its own message and not copied. */
  lemma SyncRejectsInvalidFile(src: AgentsDir, opts: Options, env: Env, dirs: map<Path, map<string, string>>, failures: map<Path, string>, name: string)
    requires SyncSpec(src, opts, env, dirs, failures).report.Finished?
    requires FetchSubagentFiles(src).Success? && name in FilesToSync(src, opts)
    requires ReadFile(src, name).Success? && !ValidateYamlFrontmatter(ReadFile(src, name).value)
    ensures var results := SyncSpec(src, opts, env, dirs, failures).report.results;
            FailedFile(name, InvalidFrontmatterPrefix + name) in results.failed && name !in results.success
    ensures AgentsDirPath(opts.global, env).Success?
    ensures var run := SyncSpec(src, opts, env, dirs, failures);
            var agentsDir := AgentsDirPath(opts.global, env).value;
            && agentsDir in run.dirs
            && (name in run.dirs[agentsDir] <==> agentsDir in dirs && name in dirs[agentsDir])
            && (name in run.dirs[agentsDir] ==> run.dirs[agentsDir][name] == dirs[agentsDir][name])
  {
    FinishedRun(src, opts, env, dirs, failures);
    var c := RunCopier(src, opts, env, dirs, failures);
    var files := FilesToSync(src, opts);
    TallyAccounts(c, files);
    WrittenExactly(c, files);
    FilterSpec(files, Copied(c));
    FilterSpec(files, Rejected(c));
    var failed := Tally(c, files).failed;
    assert name in FailedNames(failed);
    var i :| 0 <= i < |failed| && FailedNames(failed)[i] == name;
    assert failed[i] in failed;
  }

  /**
   * The sync never deletes: every directory stays, every file stays, and every file other than
   * the ones this sync copied keeps its content.
   */
  lemma SyncNeverDeletes(src: AgentsDir, opts: Options, env: Env, dirs: map<Path, map<string, string>>, failures: map<Path, string>)
    ensures var run := SyncSpec(src, opts, env, dirs, failures);
            forall q :: q in dirs ==> q in run.dirs && dirs[q].Keys <= run.dirs[q].Keys
    ensures var run := SyncSpec(src, opts, env, dirs, failures);
            forall q, name :: q in dirs && name in dirs[q] &&
                              !(run.report.Finished? && q == AgentsDirPath(opts.global, env).value && name in run.report.results.success) ==>
                                run.dirs[q][name] == dirs[q][name]
  {
    var run := SyncSpec(src, opts, env, dirs, failures);
    if run.report.Finished? {
      FinishedRun(src, opts, env, dirs, failures);
      var c := RunCopier(src, opts, env, dirs, failures);
      var files := FilesToSync(src, opts);
      TallyAccounts(c, files);
      WrittenExactly(c, files);
      FilterSpec(files, Copied(c));
    }
  }

  /** Running the same sync again on the disk it left changes nothing and reports the same. */
  lemma SyncIdempotent(src: AgentsDir, opts: Options, env: Env, dirs: map<Path, map<string, string>>, failures: map<Path, string>)
    ensures var run := SyncSpec(src, opts, env, dirs, failures);
            SyncSpec(src, opts, env, run.dirs, failures) == run
  {
    var run := SyncSpec(src, opts, env, dirs, failures);
    if run.report.Finished? {
      FinishedRun(src, opts, env, dirs, failures);
      var provisioned := Provision(opts.global, env, dirs, failures);
      var agentsDir := provisioned.outcome.value;
      var c := RunCopier(src, opts, env, dirs, failures);
      var w := Written(c, FilesToSync(src, opts));
      assert run.dirs.Keys == provisioned.dirs.Keys;
      assert Provision(opts.global, env, run.dirs, failures) == Provisioned(Success(agentsDir), run.dirs);
      assert RunCopier(src, opts, env, run.dirs, failures) == c;
      assert run.dirs[agentsDir] + w == run.dirs[agentsDir];
    }
  }

  /** The bundled directory of the worked example below. */
  function ExampleSource(): AgentsDir
  {
    AgentsDir(Success(["code-reviewer.md", "README.md", "broken-agent.md"]),
              map["code-reviewer.md" := Success("---\nname: a\n---\n"),
                  "README.md" := Success("# Agents\n"),
                  "broken-agent.md" := Success("name: b\n")])
  }

  lemma ExampleListing()
    ensures FetchSubagentFiles(ExampleSource()) == Success(["code-reviewer.md", "broken-agent.md"])
  {
    var good, readme, broken := "code-reviewer.md", "README.md", "broken-agent.md";
    assert IsSubagentFile(good) && IsSubagentFile(broken);
    assert readme[5] == '-' ==> false;
    assert !IsSubagentFile(readme);
    assert [good, readme, broken][1..] == [readme, broken];
    assert [readme, broken][1..] == [broken];
    assert [broken][1..] == [];
    assert Filter([broken], IsSubagentFile) == [broken];
    assert Filter([readme, broken], IsSubagentFile) == [broken];
    assert Filter([good, readme, broken], IsSubagentFile) == [good, broken];
  }

  lemma ExampleFrontmatter()
    ensures ValidateYamlFrontmatter("---\nname: a\n---\n")
    ensures !ValidateYamlFrontmatter("name: b\n")
  {
    var goodText, brokenText := "---\nname: a\n---\n", "name: b\n";
    assert goodText[..4] == Opening;
    assert ClosingAt(goodText, 11);
    assert brokenText[..4] != Opening by { assert brokenText[..4][0] == 'n'; }
  }

  lemma ExampleOutcomes(c: Copier)
    requires c.source == ExampleSource() && c.agentsDir in c.existing && c.failures == map[]
    requires c.agentsDir + ["code-reviewer.md"] !in c.existing
    ensures CopyOutcome(c, "code-reviewer.md") == Success("---\nname: a\n---\n")
    ensures CopyOutcome(c, "broken-agent.md") == Failure("Invalid YAML frontmatter in broken-agent.md")
  {
    ExampleFrontmatter();
    assert ReadFile(c.source, "code-reviewer.md") == Success("---\nname: a\n---\n");
    assert ReadFile(c.source, "broken-agent.md") == Success("name: b\n");
    assert InvalidFrontmatterPrefix + "broken-agent.md" == "Invalid YAML frontmatter in broken-agent.md";
  }

  lemma ExampleCopyLoop(c: Copier)
    requires c.source == ExampleSource() && c.agentsDir in c.existing && c.failures == map[]
    requires c.agentsDir + ["code-reviewer.md"] !in c.existing
    ensures Tally(c, ["code-reviewer.md", "broken-agent.md"]) ==
              Results(["code-reviewer.md"], [FailedFile("broken-agent.md", "Invalid YAML frontmatter in broken-agent.md")])
    ensures Written(c, ["code-reviewer.md", "broken-agent.md"]) == map["code-reviewer.md" := "---\nname: a\n---\n"]
  {
    var good, broken := "code-reviewer.md", "broken-agent.md";
    ExampleOutcomes(c);
    assert [good, broken][..1] == [good] && [good][..0] == [];
    assert Tally(c, [good]) == Results([good], []);
    assert Written(c, [good]) == map[good := "---\nname: a\n---\n"];
  }

  /** The example's local sync finds no `.claude` and creates it, with nothing in the way of its files. */
  lemma ExampleProvision(cwd: string)
    ensures var provisioned := Provision(false, Env(None, None, cwd), map[[] := map[]], map[]);
            && provisioned.outcome == Success([cwd, ".claude", "agents"])
            && provisioned.dirs[[cwd, ".claude", "agents"]] == map[]
            && [cwd, ".claude", "agents"] + ["code-reviewer.md"] !in provisioned.dirs
  {
    var dirs: map<Path, map<string, string>> := map[[] := map[]];
    var agentsDir: Path := [cwd, ConfigDir, AgentsSubdir];
    var provisioned := Provision(false, Env(None, None, cwd), dirs, map[]);
    assert provisioned == Provisioned(Success(agentsDir), MakeDirs(dirs, agentsDir));
    var target := agentsDir + ["code-reviewer.md"];
    assert forall k :: 0 <= k <= |agentsDir| ==> |agentsDir[..k]| < |target|;
    assert target !in provisioned.dirs;
  }

  /** The example's sync is the copy loop over both sub-agent files, against the directory it creates. */
  lemma ExampleRun(cwd: string)
    ensures var provisioned := Provision(false, Env(None, None, cwd), map[[] := map[]], map[]);
            var agentsDir: Path := [cwd, ".claude", "agents"];
            var c := Copier(ExampleSource(), provisioned.dirs.Keys, map[], agentsDir);
            var files := ["code-reviewer.md", "broken-agent.md"];
            && agentsDir in provisioned.dirs
            && SyncSpec(ExampleSource(), Options(None, false), Env(None, None, cwd), map[[] := map[]], map[]) ==
                 SyncRun(Finished(|Tally(c, files).failed| == 0, Tally(c, files)),
                         provisioned.dirs[agentsDir := provisioned.dirs[agentsDir] + Written(c, files)])
  {
    var files := ["code-reviewer.md", "broken-agent.md"];
    ExampleListing();
    ExampleProvision(cwd);
    ReadyRun(ExampleSource(), Options(None, false), Env(None, None, cwd), map[[] := map[]], map[], files, [cwd, ConfigDir, AgentsSubdir]);
    assert SelectFiles(files, None) == files;
  }

  /** The copy loop of the example, run against the directory its sync creates. */
  lemma ExampleLoopInCreatedDirectory(cwd: string)
    ensures var provisioned := Provision(false, Env(None, None, cwd), map[[] := map[]], map[]);
            var c := Copier(ExampleSource(), provisioned.dirs.Keys, map[], [cwd, ".claude", "agents"]);
            var files := ["code-reviewer.md", "broken-agent.md"];
            && Tally(c, files) == Results(["code-reviewer.md"],
                                          [FailedFile("broken-agent.md", "Invalid YAML frontmatter in broken-agent.md")])
            && provisioned.dirs[[cwd, ".claude", "agents"]] + Written(c, files) == map["code-reviewer.md" := "---\nname: a\n---\n"]
  {
    ExampleProvision(cwd);
    var provisioned := Provision(false, Env(None, None, cwd), map[[] := map[]], map[]);
    var c := Copier(ExampleSource(), provisioned.dirs.Keys, map[], [cwd, ".claude", "agents"]);
    ExampleCopyLoop(c);
    var written := Written(c, ["code-reviewer.md", "broken-agent.md"]);
    assert provisioned.dirs[[cwd, ".claude", "agents"]] + written == written;
  }

  /**
   * A worked example, a local sync with default options into a project, in any working
   * directory, that has no `.claude` yet: `code-reviewer.md` carries frontmatter,
   * `broken-agent.md` does not, and `README.md` is not a sub-agent file at all, so it is
   * neither copied nor reported.
   */
  lemma MixedDirectoryExample(cwd: string)
    ensures var run := SyncSpec(ExampleSource(), Options(None, false), Env(None, None, cwd), map[[] := map[]], map[]);
            && run.report == Finished(false, Results(["code-reviewer.md"],
                                                     [FailedFile("broken-agent.md", "Invalid YAML frontmatter in broken-agent.md")]))
            && run.dirs[[cwd, ".claude", "agents"]] == map["code-reviewer.md" := "---\nname: a\n---\n"]
  {
    ExampleRun(cwd);
    ExampleLoopInCreatedDirectory(cwd);
  }
}
