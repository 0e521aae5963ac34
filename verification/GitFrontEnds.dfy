// The two producers of changed files: `get_diff` (a git diff between two refs) and
// `process_webhook_files` (the file lists of pushed commits).

module GitFrontEnds {
  import opened Wrappers
  import opened GitOps
  import opened GitConvergence

  // Fetching a file at a ref: absent, present, or a failed fetch.
  type Lookup = string -> Option<string>
  type Fetch = string -> Result<Option<string>, string>

  predicate EndsWith(s: string, suffix: string) {
    |s| >= |suffix| && s[|s| - |suffix|..] == suffix
  }

  predicate IsYaml(path: string) {
    EndsWith(path, ".yaml") || EndsWith(path, ".yml")
  }

  // -- git diff ----------------------------------------------------------------------------

  // The configured prefixes, already cut at commas and trimmed.
  predicate HasPrefix(prefixes: Option<seq<string>>, path: string) {
    prefixes.Some? ==> exists prefix | prefix in prefixes.value :: prefix <= path
  }

  // A line of `git diff --name-status`.
  datatype Line = Line(status: string, path: string)

  // What a line contributes on each side; unreadable files are skipped, other statuses ignored.
  function LineActive(line: Line, afterAt: Lookup): seq<FileChange> {
    if line.status in {"A", "M"} && afterAt(line.path).Some?
    then [FileChange(line.path, afterAt(line.path).value)]
    else []
  }

  function LineDeleted(line: Line, beforeAt: Lookup, afterAt: Lookup): seq<FileChange> {
    if (line.status == "D" || (line.status == "M" && afterAt(line.path).Some?)) && beforeAt(line.path).Some?
    then [FileChange(line.path, beforeAt(line.path).value)]
    else []
  }

  function DiffFilter(prefixes: Option<seq<string>>): string -> bool {
    p => IsYaml(p) && HasPrefix(prefixes, p)
  }

  // The files of the selected lines, line by line.
  function Reported(
    lines: seq<Line>, prefixes: Option<seq<string>>, beforeAt: Lookup, afterAt: Lookup): ProcessedFiles
  {
    if lines == [] then ProcessedFiles([], [])
    else
      var was, line := Reported(lines[..|lines| - 1], prefixes, beforeAt, afterAt), lines[|lines| - 1];
      if !DiffFilter(prefixes)(line.path) then was
      else ProcessedFiles(
        was.activeFiles + LineActive(line, afterAt), was.deletedFiles + LineDeleted(line, beforeAt, afterAt))
  }

  // `get_diff` over the lines of `get_changed_files`, which passes YAML paths only.
  method GetDiff(lines: seq<Line>, prefixes: Option<seq<string>>, beforeAt: Lookup, afterAt: Lookup)
    returns (processed: ProcessedFiles)
    ensures processed == Reported(lines, prefixes, beforeAt, afterAt)
  {
    hide IsYaml, HasPrefix;
    var activeFiles: seq<FileChange> := [];
    var deletedFiles: seq<FileChange> := [];
    for i := 0 to |lines|
      invariant ProcessedFiles(activeFiles, deletedFiles) == Reported(lines[..i], prefixes, beforeAt, afterAt)
    {
      var line := lines[i];
      assert lines[..i + 1][..i] == lines[..i];
      if IsYaml(line.path) && HasPrefix(prefixes, line.path) {
        if line.status == "A" || line.status == "M" {
          match afterAt(line.path) {
            case Some(content) =>
              activeFiles := activeFiles + [FileChange(line.path, content)];
              if line.status == "M" {
                match beforeAt(line.path) {
                  case Some(beforeContent) =>
                    deletedFiles := deletedFiles + [FileChange(line.path, beforeContent)];
                  case None =>
                }
              }
            case None =>
          }
        } else if line.status == "D" {
          match beforeAt(line.path) {
            case Some(content) =>
              deletedFiles := deletedFiles + [FileChange(line.path, content)];
            case None =>
          }
        }
      }
    }
    assert lines[..|lines|] == lines;
    processed := ProcessedFiles(activeFiles, deletedFiles);
  }

  // A file is reported exactly when a selected line contributes it.
  lemma {:induction false} ReportedIs(
      lines: seq<Line>, prefixes: Option<seq<string>>, beforeAt: Lookup, afterAt: Lookup, f: FileChange)
    ensures f in Reported(lines, prefixes, beforeAt, afterAt).activeFiles <==>
      exists l :: l in lines && DiffFilter(prefixes)(l.path) && f in LineActive(l, afterAt)
    ensures f in Reported(lines, prefixes, beforeAt, afterAt).deletedFiles <==>
      exists l :: l in lines && DiffFilter(prefixes)(l.path) && f in LineDeleted(l, beforeAt, afterAt)
  {
    hide IsYaml, HasPrefix, LineActive, LineDeleted;
    if lines != [] {
      var rest := lines[..|lines| - 1];
      ReportedIs(rest, prefixes, beforeAt, afterAt, f);
      assert lines == rest + [lines[|lines| - 1]];
      assert forall l :: l in lines <==> l in rest || l == lines[|lines| - 1];
    }
  }

  // -- Convergence of the diff ---------------------------------------------------------------

  function At(files: Snapshot): Lookup { p => Get(files, p) }

  // How git reports a path that differs.
  function StatusOf(before: Snapshot, after: Snapshot, path: string): string {
    if path !in before then "A" else if path !in after then "D" else "M"
  }

  // The lines are exactly the differing YAML paths, with their status.
  ghost predicate IsChangeList(lines: seq<Line>, before: Snapshot, after: Snapshot) {
    forall l :: l in lines <==>
      IsYaml(l.path) && Get(before, l.path) != Get(after, l.path) && l.status == StatusOf(before, after, l.path)
  }

  lemma DiffIsTruthful(
      yaml: Yaml, lines: seq<Line>, prefixes: Option<seq<string>>, before: Snapshot, after: Snapshot)
    ensures
      var processed := Reported(lines, prefixes, At(before), At(after));
      && Truthful(yaml, after, DiffFilter(prefixes), processed.activeFiles)
      && Truthful(yaml, before, DiffFilter(prefixes), processed.deletedFiles)
  {
    hide IsYaml, HasPrefix, Reported;
    var processed := Reported(lines, prefixes, At(before), At(after));
    forall f
      ensures f in processed.activeFiles ==> DiffFilter(prefixes)(f.path) && Get(after, f.path) == Some(f.content)
      ensures f in processed.deletedFiles ==> DiffFilter(prefixes)(f.path) && Get(before, f.path) == Some(f.content)
    {
      ReportedIs(lines, prefixes, At(before), At(after), f);
    }
  }

  lemma DiffCovers(
      yaml: Yaml, before: Snapshot, after: Snapshot, lines: seq<Line>, prefixes: Option<seq<string>>)
    requires IsChangeList(lines, before, after)
    ensures Covers(yaml, before, after, DiffFilter(prefixes), Reported(lines, prefixes, At(before), At(after)))
  {
    hide IsYaml, HasPrefix, Reported, Truthful;
    var processed := Reported(lines, prefixes, At(before), At(after));
    DiffIsTruthful(yaml, lines, prefixes, before, after);
    forall p | DiffFilter(prefixes)(p) && Get(before, p) != Get(after, p)
      ensures p in after ==> FileChange(p, after[p]) in processed.activeFiles
      ensures p in before ==> FileChange(p, before[p]) in processed.deletedFiles
    {
      var l := Line(StatusOf(before, after, p), p);
      assert l in lines;
      if p in after {
        ReportedIs(lines, prefixes, At(before), At(after), FileChange(p, after[p]));
      }
      if p in before {
        ReportedIs(lines, prefixes, At(before), At(after), FileChange(p, before[p]));
      }
    }
    forall f | f in processed.activeFiles || f in processed.deletedFiles
      ensures Get(before, f.path) != Get(after, f.path)
    {
      ReportedIs(lines, prefixes, At(before), At(after), f);
    }
  }

  // No manifest key is declared twice in either snapshot.
  ghost predicate BothOnce(yaml: Yaml, before: Snapshot, after: Snapshot, selected: string -> bool) {
    KeysOnce(yaml, before, selected) && KeysOnce(yaml, after, selected)
  }

  // The manifests that selected lines mention on the new and on the old side.
  ghost predicate ActiveIn(yaml: Yaml, l: Line, selected: string -> bool, after: Snapshot, d: Document) {
    l.status in {"A", "M"} && Declares(yaml, after, selected, l.path, d)
  }

  ghost predicate DeletedIn(
    yaml: Yaml, l: Line, selected: string -> bool, before: Snapshot, after: Snapshot, d: Document)
  {
    (l.status == "D" || (l.status == "M" && l.path in after)) && Declares(yaml, before, selected, l.path, d)
  }

  ghost function LinesActive(
    yaml: Yaml, lines: seq<Line>, selected: string -> bool, after: Snapshot): iset<GroupKey>
  {
    iset l: Line, d: Document | l in lines && ActiveIn(yaml, l, selected, after, d) :: d.key
  }

  ghost function LinesDeleted(
    yaml: Yaml, lines: seq<Line>, selected: string -> bool, before: Snapshot, after: Snapshot): iset<GroupKey>
  {
    iset l: Line, d: Document | l in lines && DeletedIn(yaml, l, selected, before, after, d) :: d.key
  }

  lemma LinesMentionActive(
      yaml: Yaml, lines: seq<Line>, prefixes: Option<seq<string>>, before: Snapshot, after: Snapshot, k: GroupKey)
    ensures k in Mentioned(yaml, Reported(lines, prefixes, At(before), At(after)).activeFiles)
      <==> k in LinesActive(yaml, lines, DiffFilter(prefixes), after)
  {
    hide IsYaml, HasPrefix, Reported, Yaml.Documents, LineDeleted;
    var processed, selected := Reported(lines, prefixes, At(before), At(after)), DiffFilter(prefixes);
    if k in Mentioned(yaml, processed.activeFiles) {
      var f, d :| f in processed.activeFiles && d in yaml.Documents(f.content) && d.key == k;
      ReportedIs(lines, prefixes, At(before), At(after), f);
      var l :| l in lines && selected(l.path) && f in LineActive(l, At(after));
      assert ActiveIn(yaml, l, selected, after, d);
    }
    if k in LinesActive(yaml, lines, selected, after) {
      var l, d :| l in lines && ActiveIn(yaml, l, selected, after, d) && d.key == k;
      ReportedIs(lines, prefixes, At(before), At(after), FileChange(l.path, after[l.path]));
    }
  }

  lemma LinesMentionDeleted(
      yaml: Yaml, lines: seq<Line>, prefixes: Option<seq<string>>, before: Snapshot, after: Snapshot, k: GroupKey)
    ensures k in Mentioned(yaml, Reported(lines, prefixes, At(before), At(after)).deletedFiles)
      <==> k in LinesDeleted(yaml, lines, DiffFilter(prefixes), before, after)
  {
    hide IsYaml, HasPrefix, Reported, Yaml.Documents, LineActive;
    var processed, selected := Reported(lines, prefixes, At(before), At(after)), DiffFilter(prefixes);
    if k in Mentioned(yaml, processed.deletedFiles) {
      var f, d :| f in processed.deletedFiles && d in yaml.Documents(f.content) && d.key == k;
      ReportedIs(lines, prefixes, At(before), At(after), f);
      var l :| l in lines && selected(l.path) && f in LineDeleted(l, At(before), At(after));
      assert DeletedIn(yaml, l, selected, before, after, d);
    }
    if k in LinesDeleted(yaml, lines, selected, before, after) {
      var l, d :| l in lines && DeletedIn(yaml, l, selected, before, after, d) && d.key == k;
      ReportedIs(lines, prefixes, At(before), At(after), FileChange(l.path, before[l.path]));
    }
  }

  // For any lines at all: the groups converge exactly when the lines mention enough.
  lemma DiffConvergesIff(
      yaml: Yaml, lines: seq<Line>, prefixes: Option<seq<string>>, before: Snapshot, after: Snapshot,
      groups: seq<GroupedFile>)
    requires BothOnce(yaml, before, after, DiffFilter(prefixes))
    requires Grouped(yaml, Reported(lines, prefixes, At(before), At(after)), groups)
    ensures
      var selected := DiffFilter(prefixes);
      var was, now := Manifests(yaml, before, selected), Manifests(yaml, after, selected);
      Replay(was, groups) == now <==> Suffices(was, now,
        LinesActive(yaml, lines, selected, after), LinesDeleted(yaml, lines, selected, before, after))
  {
    hide Manifests, Grouped, Reported, Mentioned, Truthful, Suffices, DiffFilter, LinesActive, LinesDeleted;
    DiffIsTruthful(yaml, lines, prefixes, before, after);
    var processed, selected := Reported(lines, prefixes, At(before), At(after)), DiffFilter(prefixes);
    forall k
      ensures k in Mentioned(yaml, processed.activeFiles) <==> k in LinesActive(yaml, lines, selected, after)
      ensures k in Mentioned(yaml, processed.deletedFiles) <==> k in LinesDeleted(yaml, lines, selected, before, after)
    {
      LinesMentionActive(yaml, lines, prefixes, before, after, k);
      LinesMentionDeleted(yaml, lines, prefixes, before, after, k);
    }
    assert Mentioned(yaml, processed.activeFiles) == LinesActive(yaml, lines, selected, after);
    assert Mentioned(yaml, processed.deletedFiles) == LinesDeleted(yaml, lines, selected, before, after);
    ConvergesIffSuffices(
      yaml, before, after, DiffFilter(prefixes), Reported(lines, prefixes, At(before), At(after)), groups);
  }

  // `group_files_by_manifest(get_diff(..))`: converges for the change list of the snapshots, and
  // for other lines exactly when they mention enough.
  method ReconcileDiff(
      yaml: Yaml, lines: seq<Line>, prefixes: Option<seq<string>>, before: Snapshot, after: Snapshot)
    returns (groups: seq<GroupedFile>)
    requires yaml.Lawful()
    ensures IsChangeList(lines, before, after) && BothOnce(yaml, before, after, DiffFilter(prefixes)) ==>
      Replay(Manifests(yaml, before, DiffFilter(prefixes)), groups) == Manifests(yaml, after, DiffFilter(prefixes))
    ensures BothOnce(yaml, before, after, DiffFilter(prefixes)) ==>
      var selected := DiffFilter(prefixes);
      var was, now := Manifests(yaml, before, selected), Manifests(yaml, after, selected);
      Replay(was, groups) == now <==> Suffices(was, now,
        LinesActive(yaml, lines, selected, after), LinesDeleted(yaml, lines, selected, before, after))
  {
    hide Manifests, Grouped, Reported, Suffices, DiffFilter, Covers, IsChangeList, LinesActive, LinesDeleted;
    var processed := GetDiff(lines, prefixes, At(before), At(after));
    groups := GroupFilesByManifest(yaml, processed);
    if BothOnce(yaml, before, after, DiffFilter(prefixes)) {
      DiffConvergesIff(yaml, lines, prefixes, before, after, groups);
      if IsChangeList(lines, before, after) {
        DiffCovers(yaml, before, after, lines, prefixes);
        GroupsConverge(yaml, before, after, DiffFilter(prefixes), processed, groups);
      }
    }
  }

  // -- The webhook -------------------------------------------------------------------------------

  datatype Commit = Commit(added: seq<string>, removed: seq<string>, modified: seq<string>)

  // `should_process_file`, with the configured prefix already trimmed.
  predicate ShouldProcess(path: string, prefix: Option<string>) {
    IsYaml(path) && (prefix.Some? && prefix.value != "" ==> prefix.value <= path)
  }

  datatype Listed = Listed(added: set<string>, removed: set<string>, modified: set<string>) {
    function All(): set<string> { added + removed + modified }
  }

  // The file sets of all commits together.
  function ListedOf(commits: seq<Commit>): Listed {
    Listed(
      set c, p | c in commits && p in c.added :: p,
      set c, p | c in commits && p in c.removed :: p,
      set c, p | c in commits && p in c.modified :: p)
  }

  method CollectPaths(commits: seq<Commit>) returns (listed: Listed)
    ensures listed == ListedOf(commits)
  {
    var added: set<string>, removed: set<string>, modified: set<string> := {}, {}, {};
    for i := 0 to |commits|
      invariant Listed(added, removed, modified) == ListedOf(commits[..i])
    {
      var commit := commits[i];
      added := added + (set p | p in commit.added);
      removed := removed + (set p | p in commit.removed);
      modified := modified + (set p | p in commit.modified);
      assert forall c :: c in commits[..i + 1] <==> c in commits[..i] || c == commit;
    }
    assert commits[..|commits|] == commits;
    listed := Listed(added, removed, modified);
  }

  // What a listed path contributes on each side; a modified file that is absent counts as empty.
  function ActiveText(listed: Listed, path: string, after: Option<string>): Option<string> {
    if path in listed.modified then Some(if after.Some? then after.value else "")
    else if path in listed.added then after
    else None
  }

  function DeletedText(listed: Listed, path: string, before: Option<string>): Option<string> {
    if path in listed.modified then Some(if before.Some? then before.value else "")
    else if path in listed.added then None
    else if path in listed.removed then before
    else None
  }

  ghost predicate WebhookOf(
    listed: Listed, paths: set<string>, prefix: Option<string>, beforeAt: Lookup, afterAt: Lookup,
    processed: ProcessedFiles)
  {
    && (forall f :: f in processed.activeFiles <==>
          && f.path in paths && ShouldProcess(f.path, prefix)
          && ActiveText(listed, f.path, afterAt(f.path)) == Some(f.content))
    && (forall f :: f in processed.deletedFiles <==>
          && f.path in paths && ShouldProcess(f.path, prefix)
          && DeletedText(listed, f.path, beforeAt(f.path)) == Some(f.content))
  }

  // What a fetch finds; a failed one finds nothing.
  function Found(fetch: Fetch): Lookup {
    p => if fetch(p).Ok? then fetch(p).value else None
  }

  // One of the fetches that a listed file needs fails.
  predicate FetchFails(listed: Listed, file: string, prefix: Option<string>, fetchBefore: Fetch, fetchAfter: Fetch) {
    && ShouldProcess(file, prefix)
    && if file in listed.modified then fetchAfter(file).Err? || fetchBefore(file).Err?
       else if file in listed.added then fetchAfter(file).Err?
       else file in listed.removed && fetchBefore(file).Err?
  }

  ghost predicate SomeFetchFails(
    listed: Listed, paths: set<string>, prefix: Option<string>, fetchBefore: Fetch, fetchAfter: Fetch)
  {
    exists p :: p in paths && FetchFails(listed, p, prefix, fetchBefore, fetchAfter)
  }

  // `process_webhook_files`: it fails exactly when a fetch it needs fails.
  method ProcessWebhookFiles(commits: seq<Commit>, prefix: Option<string>, fetchBefore: Fetch, fetchAfter: Fetch)
    returns (result: Result<ProcessedFiles, string>)
    ensures
      var listed := ListedOf(commits);
      && (result.Err? <==> SomeFetchFails(listed, listed.All(), prefix, fetchBefore, fetchAfter))
      && (result.Ok? ==> WebhookOf(listed, listed.All(), prefix, Found(fetchBefore), Found(fetchAfter), result.value))
  {
    hide FileAdded, WebhookOf, FetchFails, ListedOf, ShouldProcess, Found;
    var listed := CollectPaths(commits);
    var processed := ProcessedFiles([], []);
    var todo := listed.All();
    ghost var done: set<string> := {};
    NothingProcessed(listed, prefix, Found(fetchBefore), Found(fetchAfter));
    while todo != {}
      invariant done !! todo && done + todo == listed.All()
      invariant WebhookOf(listed, done, prefix, Found(fetchBefore), Found(fetchAfter), processed)
      invariant !SomeFetchFails(listed, done, prefix, fetchBefore, fetchAfter)
      decreases |todo|
    {
      var file :| file in todo;
      var step := AddFile(listed, file, prefix, fetchBefore, fetchAfter, processed);
      if step.Err? {
        return Err(step.error);
      }
      AddsFile(listed, done, file, prefix, Found(fetchBefore), Found(fetchAfter), processed, step.value);
      processed := step.value;
      todo := todo - {file};
      done := done + {file};
    }
    assert done == listed.All();
    result := Ok(processed);
  }

  lemma NothingProcessed(listed: Listed, prefix: Option<string>, beforeAt: Lookup, afterAt: Lookup)
    ensures WebhookOf(listed, {}, prefix, beforeAt, afterAt, ProcessedFiles([], []))
  {}

  // One file was added to the lists, given its texts before and after.
  ghost predicate FileAdded(
    listed: Listed, file: string, prefix: Option<string>, before: Option<string>, after: Option<string>,
    was: ProcessedFiles, now: ProcessedFiles)
  {
    && (forall f :: f in now.activeFiles <==>
          || f in was.activeFiles
          || (f.path == file && ShouldProcess(file, prefix) && ActiveText(listed, file, after) == Some(f.content)))
    && (forall f :: f in now.deletedFiles <==>
          || f in was.deletedFiles
          || (f.path == file && ShouldProcess(file, prefix) && DeletedText(listed, file, before) == Some(f.content)))
  }

  lemma AddsFile(
      listed: Listed, done: set<string>, file: string, prefix: Option<string>, beforeAt: Lookup, afterAt: Lookup,
      was: ProcessedFiles, now: ProcessedFiles)
    requires WebhookOf(listed, done, prefix, beforeAt, afterAt, was)
    requires FileAdded(listed, file, prefix, beforeAt(file), afterAt(file), was, now)
    ensures WebhookOf(listed, done + {file}, prefix, beforeAt, afterAt, now)
  {
    hide ShouldProcess;
  }

  // The body of the loop over the listed files.
  method AddFile(listed: Listed, file: string, prefix: Option<string>, fetchBefore: Fetch, fetchAfter: Fetch,
      was: ProcessedFiles)
    returns (result: Result<ProcessedFiles, string>)
    requires file in listed.All()
    ensures result.Err? <==> FetchFails(listed, file, prefix, fetchBefore, fetchAfter)
    ensures result.Ok? ==>
      FileAdded(listed, file, prefix, Found(fetchBefore)(file), Found(fetchAfter)(file), was, result.value)
  {
    hide IsYaml;
    if !ShouldProcess(file, prefix) {
      return Ok(was);
    }
    if file in listed.modified {
      var after := fetchAfter(file);
      if after.Err? { return Err(after.error); }
      var before := fetchBefore(file);
      if before.Err? { return Err(before.error); }
      var activeContent := if after.value.Some? then after.value.value else "";
      var deletedContent := if before.value.Some? then before.value.value else "";
      return Ok(ProcessedFiles(
        was.activeFiles + [FileChange(file, activeContent)], was.deletedFiles + [FileChange(file, deletedContent)]));
    } else if file in listed.added {
      var after := fetchAfter(file);
      if after.Err? { return Err(after.error); }
      if after.value.Some? {
        return Ok(was.(activeFiles := was.activeFiles + [FileChange(file, after.value.value)]));
      }
    } else if file in listed.removed {
      var before := fetchBefore(file);
      if before.Err? { return Err(before.error); }
      if before.value.Some? {
        return Ok(was.(deletedFiles := was.deletedFiles + [FileChange(file, before.value.value)]));
      }
    }
    return Ok(was);
  }

  // -- Convergence of the webhook ------------------------------------------------------------------

  function WebhookFilter(prefix: Option<string>): string -> bool { p => ShouldProcess(p, prefix) }

  // The commits list every differing file; one only added was absent, one only removed is gone.
  ghost predicate ListsChanges(listed: Listed, prefix: Option<string>, before: Snapshot, after: Snapshot) {
    && (forall p | ShouldProcess(p, prefix) && Get(before, p) != Get(after, p) :: p in listed.All())
    && (forall p | ShouldProcess(p, prefix) && p in listed.added - listed.modified :: p !in before)
    && (forall p | ShouldProcess(p, prefix) && p in listed.removed - listed.added - listed.modified :: p !in after)
  }

  lemma WebhookIsTruthful(
      yaml: Yaml, before: Snapshot, after: Snapshot, listed: Listed, prefix: Option<string>, processed: ProcessedFiles)
    requires yaml.Lawful()
    requires WebhookOf(listed, listed.All(), prefix, At(before), At(after), processed)
    ensures Truthful(yaml, after, WebhookFilter(prefix), processed.activeFiles)
    ensures Truthful(yaml, before, WebhookFilter(prefix), processed.deletedFiles)
  {
    hide ShouldProcess, Yaml.Documents;
    yaml.EmptyTextHasNoDocuments();
  }

  lemma WebhookCovers(
      yaml: Yaml, before: Snapshot, after: Snapshot, listed: Listed, prefix: Option<string>, processed: ProcessedFiles)
    requires yaml.Lawful()
    requires ListsChanges(listed, prefix, before, after)
    requires WebhookOf(listed, listed.All(), prefix, At(before), At(after), processed)
    ensures Covers(yaml, before, after, WebhookFilter(prefix), processed)
  {
    hide ShouldProcess, Yaml.Documents, Truthful;
    WebhookIsTruthful(yaml, before, after, listed, prefix, processed);
  }

  // The manifests that listed files mention on the new and on the old side.
  ghost function ListedActive(
    yaml: Yaml, listed: Listed, selected: string -> bool, after: Snapshot): iset<GroupKey>
  {
    iset p: string, d: Document |
      p in listed.modified + listed.added && Declares(yaml, after, selected, p, d) :: d.key
  }

  ghost function ListedDeleted(
    yaml: Yaml, listed: Listed, selected: string -> bool, before: Snapshot): iset<GroupKey>
  {
    iset p: string, d: Document |
      p in listed.modified + (listed.removed - listed.added) && Declares(yaml, before, selected, p, d) :: d.key
  }

  lemma ListedMentionActive(
      yaml: Yaml, before: Snapshot, after: Snapshot, listed: Listed, prefix: Option<string>, processed: ProcessedFiles,
      k: GroupKey)
    requires yaml.Lawful()
    requires WebhookOf(listed, listed.All(), prefix, At(before), At(after), processed)
    ensures k in Mentioned(yaml, processed.activeFiles) <==>
      k in ListedActive(yaml, listed, WebhookFilter(prefix), after)
  {
    hide ShouldProcess, Yaml.Documents;
    yaml.EmptyTextHasNoDocuments();
    var selected := WebhookFilter(prefix);
    if k in ListedActive(yaml, listed, selected, after) {
      var p, d :| p in listed.modified + listed.added && Declares(yaml, after, selected, p, d) && d.key == k;
      assert FileChange(p, after[p]) in processed.activeFiles;
    }
    if k in Mentioned(yaml, processed.activeFiles) {
      var f, d :| f in processed.activeFiles && d in yaml.Documents(f.content) && d.key == k;
      assert Declares(yaml, after, selected, f.path, d);
    }
  }

  lemma ListedMentionDeleted(
      yaml: Yaml, before: Snapshot, after: Snapshot, listed: Listed, prefix: Option<string>, processed: ProcessedFiles,
      k: GroupKey)
    requires yaml.Lawful()
    requires WebhookOf(listed, listed.All(), prefix, At(before), At(after), processed)
    ensures k in Mentioned(yaml, processed.deletedFiles) <==>
      k in ListedDeleted(yaml, listed, WebhookFilter(prefix), before)
  {
    hide ShouldProcess, Yaml.Documents;
    yaml.EmptyTextHasNoDocuments();
    var selected := WebhookFilter(prefix);
    if k in ListedDeleted(yaml, listed, selected, before) {
      var p, d :| p in listed.modified + (listed.removed - listed.added) && Declares(yaml, before, selected, p, d)
        && d.key == k;
      assert FileChange(p, before[p]) in processed.deletedFiles;
    }
    if k in Mentioned(yaml, processed.deletedFiles) {
      var f, d :| f in processed.deletedFiles && d in yaml.Documents(f.content) && d.key == k;
      assert Declares(yaml, before, selected, f.path, d);
    }
  }

  // For any listed sets at all: the groups converge exactly when they mention enough.
  lemma WebhookConvergesIff(
      yaml: Yaml, before: Snapshot, after: Snapshot, listed: Listed, prefix: Option<string>,
      processed: ProcessedFiles, groups: seq<GroupedFile>)
    requires yaml.Lawful() && BothOnce(yaml, before, after, WebhookFilter(prefix))
    requires WebhookOf(listed, listed.All(), prefix, At(before), At(after), processed)
    requires Grouped(yaml, processed, groups)
    ensures
      var selected := WebhookFilter(prefix);
      var was, now := Manifests(yaml, before, selected), Manifests(yaml, after, selected);
      Replay(was, groups) == now <==> Suffices(was, now,
        ListedActive(yaml, listed, selected, after), ListedDeleted(yaml, listed, selected, before))
  {
    hide Manifests, Grouped, Mentioned, Truthful, Suffices, WebhookOf, WebhookFilter, ListedActive, ListedDeleted;
    WebhookIsTruthful(yaml, before, after, listed, prefix, processed);
    var selected := WebhookFilter(prefix);
    forall k
      ensures k in Mentioned(yaml, processed.activeFiles) <==> k in ListedActive(yaml, listed, selected, after)
      ensures k in Mentioned(yaml, processed.deletedFiles) <==> k in ListedDeleted(yaml, listed, selected, before)
    {
      ListedMentionActive(yaml, before, after, listed, prefix, processed, k);
      ListedMentionDeleted(yaml, before, after, listed, prefix, processed, k);
    }
    assert Mentioned(yaml, processed.activeFiles) == ListedActive(yaml, listed, selected, after);
    assert Mentioned(yaml, processed.deletedFiles) == ListedDeleted(yaml, listed, selected, before);
    ConvergesIffSuffices(yaml, before, after, WebhookFilter(prefix), processed, groups);
  }

  // `process_webhook_files` where every fetch succeeds.
  method ReportWebhook(commits: seq<Commit>, prefix: Option<string>, before: Snapshot, after: Snapshot)
    returns (processed: ProcessedFiles)
    ensures
      var listed := ListedOf(commits);
      WebhookOf(listed, listed.All(), prefix, At(before), At(after), processed)
  {
    var result := ProcessWebhookFiles(commits, prefix, p => Ok(Get(before, p)), p => Ok(Get(after, p)));
    processed := result.value;
  }

  // `group_files_by_manifest(process_webhook_files(..))`: converges if the sets list the changes,
  // and otherwise exactly when they mention enough.
  method ReconcileWebhook(
      yaml: Yaml, commits: seq<Commit>, prefix: Option<string>, before: Snapshot, after: Snapshot)
    returns (groups: seq<GroupedFile>)
    requires yaml.Lawful()
    ensures
      && ListsChanges(ListedOf(commits), prefix, before, after)
      && BothOnce(yaml, before, after, WebhookFilter(prefix))
      ==>
        Replay(Manifests(yaml, before, WebhookFilter(prefix)), groups) == Manifests(yaml, after, WebhookFilter(prefix))
    ensures BothOnce(yaml, before, after, WebhookFilter(prefix)) ==>
      var selected, listed := WebhookFilter(prefix), ListedOf(commits);
      var was, now := Manifests(yaml, before, selected), Manifests(yaml, after, selected);
      Replay(was, groups) == now <==> Suffices(was, now,
        ListedActive(yaml, listed, selected, after), ListedDeleted(yaml, listed, selected, before))
  {
    hide Manifests, ListedOf, WebhookOf, Grouped, Suffices, WebhookFilter, Covers, ListsChanges;
    ghost var listed := ListedOf(commits);
    var processed := ReportWebhook(commits, prefix, before, after);
    groups := GroupFilesByManifest(yaml, processed);
    if BothOnce(yaml, before, after, WebhookFilter(prefix)) {
      WebhookConvergesIff(yaml, before, after, listed, prefix, processed, groups);
      if ListsChanges(listed, prefix, before, after) {
        WebhookCovers(yaml, before, after, listed, prefix, processed);
        GroupsConverge(yaml, before, after, WebhookFilter(prefix), processed, groups);
      }
    }
  }

  // -- The front ends in terms of their input ----------------------------------------------------

  ghost predicate NamedYaml(path: string) {
    (|path| >= 5 && path[|path| - 5..] == ".yaml") || (|path| >= 4 && path[|path| - 4..] == ".yml")
  }

  // Which paths are looked at: YAML files, under one of the prefixes if there are any configured.
  lemma SelectedAre(path: string, prefixes: Option<seq<string>>, prefix: Option<string>)
    ensures DiffFilter(prefixes)(path) <==>
      NamedYaml(path) && (prefixes == None || exists p :: p in prefixes.value && p <= path)
    ensures WebhookFilter(prefix)(path) <==>
      NamedYaml(path) && (prefix == None || prefix.value <= path)
  {
    hide IsYaml, NamedYaml;
    YamlIs(path);
    if prefix.Some? && prefix.value == "" {
      assert prefix.value <= path;
    }
  }

  lemma YamlIs(path: string)
    ensures IsYaml(path) <==> NamedYaml(path)
  {}

  // What `get_diff` reports, by status.
  lemma DiffFilesAre(
      lines: seq<Line>, prefixes: Option<seq<string>>, beforeAt: Lookup, afterAt: Lookup, f: FileChange)
    ensures
      var processed := Reported(lines, prefixes, beforeAt, afterAt);
      && (f in processed.activeFiles <==>
            exists l :: l in lines && l.path == f.path && DiffFilter(prefixes)(l.path)
              && l.status in {"A", "M"} && afterAt(l.path) == Some(f.content))
      && (f in processed.deletedFiles <==>
            exists l :: l in lines && l.path == f.path && DiffFilter(prefixes)(l.path)
              && (l.status == "D" || (l.status == "M" && afterAt(l.path).Some?))
              && beforeAt(l.path) == Some(f.content))
  {
    hide IsYaml, HasPrefix, Reported;
    ReportedIs(lines, prefixes, beforeAt, afterAt, f);
  }

  // What the webhook reports, by the sets a path is in.
  lemma WebhookFilesAre(
      listed: Listed, prefix: Option<string>, beforeAt: Lookup, afterAt: Lookup, processed: ProcessedFiles,
      f: FileChange)
    requires WebhookOf(listed, listed.All(), prefix, beforeAt, afterAt, processed)
    ensures
      var was, now := beforeAt(f.path), afterAt(f.path);
      && (f in processed.activeFiles <==>
            && WebhookFilter(prefix)(f.path)
            && (|| (f.path in listed.modified && f.content == (if now.Some? then now.value else ""))
                || (f.path in listed.added - listed.modified && now == Some(f.content))))
      && (f in processed.deletedFiles <==>
            && WebhookFilter(prefix)(f.path)
            && (|| (f.path in listed.modified && f.content == (if was.Some? then was.value else ""))
                || (f.path in listed.removed - listed.added - listed.modified && was == Some(f.content))))
  {
    hide ShouldProcess;
  }

  // Which fetches can fail the webhook.
  lemma NeededFetchesAre(
      listed: Listed, path: string, prefix: Option<string>, fetchBefore: Fetch, fetchAfter: Fetch)
    requires path in listed.All()
    ensures FetchFails(listed, path, prefix, fetchBefore, fetchAfter) <==>
      && WebhookFilter(prefix)(path)
      && (|| (path in listed.modified + listed.added && fetchAfter(path).Err?)
          || (path in listed.modified + (listed.removed - listed.added) && fetchBefore(path).Err?))
  {
    hide ShouldProcess;
  }

  // The listed sets are those of all commits together.
  lemma ListedAre(commits: seq<Commit>, path: string)
    ensures
      var listed := ListedOf(commits);
      && (path in listed.added <==> exists c :: c in commits && path in c.added)
      && (path in listed.removed <==> exists c :: c in commits && path in c.removed)
      && (path in listed.modified <==> exists c :: c in commits && path in c.modified)
  {}
}
