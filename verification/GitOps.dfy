// `group_files_by_manifest`: from changed files to apply, destroy and rename groups.

module GitOps {
  import opened Wrappers

  datatype FileChange = FileChange(path: string, content: string)

  datatype ProcessedFiles = ProcessedFiles(activeFiles: seq<FileChange>, deletedFiles: seq<FileChange>)

  datatype GroupKey = GroupKey(apiVersion: string, kind: string, name: string, namespace: string, region: string)

  // One manifest: its identity and its canonical YAML text.
  datatype Document = Document(key: GroupKey, content: string)

  datatype ManifestChange = ManifestChange(key: GroupKey, content: string, file: FileChange)

  datatype GroupedFile = GroupedFile(
    key: GroupKey,
    active: Option<(FileChange, string)>,
    deleted: Option<(FileChange, string)>,
    renamed: Option<(FileChange, string)>)

  // The YAML library: a text cut at "---" into trimmed pieces, a piece read as a manifest, and
  // the region found when a canonical text is read again.
  datatype Yaml = Yaml(pieces: string -> seq<string>, read: string -> Option<Document>, region: string -> string) {
    ghost predicate Lawful() {
      && pieces("") == [""]
      && forall piece | read(piece).Some? :: region(read(piece).value.content) == read(piece).value.key.region
    }

    // The manifests of a file, in order; empty and unreadable pieces are skipped.
    function Documents(text: string): seq<Document> { ReadAll(pieces(text)) }

    function ReadAll(ps: seq<string>): seq<Document> {
      if ps == [] then []
      else ReadAll(ps[..|ps| - 1]) + (var p := ps[|ps| - 1]; if p != "" && read(p).Some? then [read(p).value] else [])
    }

    lemma {:induction false} DocumentsKnowTheirRegion(ps: seq<string>)
      requires Lawful()
      ensures forall d | d in ReadAll(ps) :: region(d.content) == d.key.region
    {
      if ps != [] {
        DocumentsKnowTheirRegion(ps[..|ps| - 1]);
      }
    }

    lemma EmptyTextHasNoDocuments()
      requires Lawful()
      ensures Documents("") == []
    {
      assert ReadAll([]) == [];
    }
  }

  // -- Changes by manifest -------------------------------------------------------------------

  function ChangesIn(docs: seq<Document>, file: FileChange): seq<ManifestChange> {
    seq(|docs|, i requires 0 <= i < |docs| => ManifestChange(docs[i].key, docs[i].content, file))
  }

  // `extract_manifest_changes`
  method ExtractManifestChanges(yaml: Yaml, file: FileChange) returns (changes: seq<ManifestChange>)
    ensures changes == ChangesIn(yaml.Documents(file.content), file)
  {
    changes := [];
    var pieces := yaml.pieces(file.content);
    for i := 0 to |pieces|
      invariant changes == ChangesIn(yaml.ReadAll(pieces[..i]), file)
    {
      var piece := pieces[i];
      assert pieces[..i + 1][..i] == pieces[..i];
      if piece != "" {
        match yaml.read(piece) {
          case Some(doc) => changes := changes + [ManifestChange(doc.key, doc.content, file)];
          case None =>
        }
      }
    }
    assert pieces[..|pieces|] == pieces;
  }

  // A change found in one of the files.
  ghost predicate FoundIn(yaml: Yaml, files: seq<FileChange>, change: ManifestChange) {
    change.file in files && Document(change.key, change.content) in yaml.Documents(change.file.content)
  }

  // A map from keys to changes of the files that misses no key.
  ghost predicate Collected(yaml: Yaml, files: seq<FileChange>, changes: map<GroupKey, ManifestChange>) {
    && (forall k | k in changes :: changes[k].key == k && FoundIn(yaml, files, changes[k]))
    && (forall f, d | f in files && d in yaml.Documents(f.content) :: d.key in changes)
  }

  // `changes.insert` for each found change: the last one of a key wins.
  function Inserting(before: map<GroupKey, ManifestChange>, found: seq<ManifestChange>): map<GroupKey, ManifestChange> {
    if found == [] then before
    else var last := found[|found| - 1]; Inserting(before, found[..|found| - 1])[last.key := last]
  }

  // The changes of some files by key.
  function Changes(yaml: Yaml, files: seq<FileChange>): map<GroupKey, ManifestChange> {
    if files == [] then map[]
    else
      var last := files[|files| - 1];
      Inserting(Changes(yaml, files[..|files| - 1]), ChangesIn(yaml.Documents(last.content), last))
  }

  method CollectChanges(yaml: Yaml, files: seq<FileChange>) returns (changes: map<GroupKey, ManifestChange>)
    ensures changes == Changes(yaml, files)
  {
    changes := map[];
    for i := 0 to |files|
      invariant changes == Changes(yaml, files[..i])
    {
      var found := ExtractManifestChanges(yaml, files[i]);
      changes := InsertAll(changes, found);
      assert files[..i + 1][..i] == files[..i];
    }
    assert files[..|files|] == files;
  }

  method InsertAll(before: map<GroupKey, ManifestChange>, found: seq<ManifestChange>)
    returns (after: map<GroupKey, ManifestChange>)
    ensures after == Inserting(before, found)
  {
    after := before;
    for j := 0 to |found|
      invariant after == Inserting(before, found[..j])
    {
      assert found[..j + 1][..j] == found[..j];
      after := after[found[j].key := found[j]];
    }
    assert found[..|found|] == found;
  }

  // A change stands unless a later one has its key.
  lemma {:induction false} LastInsertedStands(before: map<GroupKey, ManifestChange>, found: seq<ManifestChange>, j: nat)
    requires j < |found| && forall i | j < i < |found| :: found[i].key != found[j].key
    ensures found[j].key in Inserting(before, found) && Inserting(before, found)[found[j].key] == found[j]
  {
    if j < |found| - 1 {
      LastInsertedStands(before, found[..|found| - 1], j);
    }
  }

  lemma {:induction false} ChangesAreCollected(yaml: Yaml, files: seq<FileChange>)
    ensures Collected(yaml, files, Changes(yaml, files))
  {
    if files != [] {
      var rest, last := files[..|files| - 1], files[|files| - 1];
      var found := ChangesIn(yaml.Documents(last.content), last);
      ChangesAreCollected(yaml, rest);
      InsertingAbsorbs(Changes(yaml, rest), found);
      CollectedGrows(yaml, rest, Changes(yaml, rest), last, found, Changes(yaml, files));
      assert rest + [last] == files;
    }
  }

  ghost predicate Absorbs(
    before: map<GroupKey, ManifestChange>, found: seq<ManifestChange>, after: map<GroupKey, ManifestChange>)
  {
    && (forall k | k in before :: k in after)
    && (forall c | c in found :: c.key in after)
    && (forall k | k in after :: (k in before && after[k] == before[k]) || (after[k] in found && after[k].key == k))
  }

  lemma {:induction false} InsertingAbsorbs(before: map<GroupKey, ManifestChange>, found: seq<ManifestChange>)
    ensures Absorbs(before, found, Inserting(before, found))
  {
    if found != [] {
      var rest, last := found[..|found| - 1], found[|found| - 1];
      InsertingAbsorbs(before, rest);
      assert forall c :: c in found <==> c in rest || c == last;
    }
  }

  lemma CollectedGrows(yaml: Yaml, files: seq<FileChange>, before: map<GroupKey, ManifestChange>,
      file: FileChange, found: seq<ManifestChange>, after: map<GroupKey, ManifestChange>)
    requires Collected(yaml, files, before)
    requires found == ChangesIn(yaml.Documents(file.content), file)
    requires Absorbs(before, found, after)
    ensures Collected(yaml, files + [file], after)
  {
    var docs := yaml.Documents(file.content);
    forall d | d in docs ensures d.key in after {
      var j :| 0 <= j < |docs| && docs[j] == d;
      assert found[j] in found && found[j].key == d.key;
    }
    assert forall f :: f in files + [file] <==> f in files || f == file;
  }

  // -- Groups ------------------------------------------------------------------------------------

  function Apply(change: ManifestChange): GroupedFile {
    GroupedFile(change.key, Some((change.file, change.content)), None, None)
  }

  function Destroy(change: ManifestChange): GroupedFile {
    GroupedFile(change.key, None, Some((change.file, change.content)), None)
  }

  function Rename(change: ManifestChange): GroupedFile {
    GroupedFile(change.key, None, None, Some((change.file, change.content)))
  }

  // What is to be done about a manifest key.
  function GroupOf(
    active: map<GroupKey, ManifestChange>, deleted: map<GroupKey, ManifestChange>, key: GroupKey): Option<GroupedFile>
  {
    if key in active then
      if key !in deleted || active[key].content != deleted[key].content then Some(Apply(active[key]))
      else if active[key].file.content == deleted[key].file.content && active[key].file.path != deleted[key].file.path
      then Some(Rename(active[key]))
      else None
    else if key in deleted then Some(Destroy(deleted[key]))
    else None
  }

  ghost predicate KeyedOnce(groups: seq<GroupedFile>) {
    forall i, j | 0 <= i < j < |groups| :: groups[i].key != groups[j].key
  }

  // The groups are those of the given keys, once each.
  ghost predicate GroupsFor(
    groups: seq<GroupedFile>, active: map<GroupKey, ManifestChange>, deleted: map<GroupKey, ManifestChange>,
    keys: set<GroupKey>)
  {
    && KeyedOnce(groups)
    && forall g :: g in groups <==> g.key in keys && GroupOf(active, deleted, g.key) == Some(g)
  }

  // Both sides of a key were read from the key's own region, so a region change never shows up
  // as two versions of one key.
  lemma RegionsAgree(yaml: Yaml, a: seq<FileChange>, d: seq<FileChange>,
      active: map<GroupKey, ManifestChange>, deleted: map<GroupKey, ManifestChange>, key: GroupKey)
    requires yaml.Lawful()
    requires Collected(yaml, a, active) && Collected(yaml, d, deleted)
    requires key in active && key in deleted
    ensures yaml.region(active[key].content) == yaml.region(deleted[key].content) == key.region
  {
    yaml.DocumentsKnowTheirRegion(yaml.pieces(active[key].file.content));
    yaml.DocumentsKnowTheirRegion(yaml.pieces(deleted[key].file.content));
    assert FoundIn(yaml, a, active[key]) && FoundIn(yaml, d, deleted[key]);
  }

  // The groups of all keys.
  ghost predicate Grouped(yaml: Yaml, processed: ProcessedFiles, groups: seq<GroupedFile>) {
    var active, deleted := Changes(yaml, processed.activeFiles), Changes(yaml, processed.deletedFiles);
    GroupsFor(groups, active, deleted, active.Keys + deleted.Keys)
  }

  method GroupFilesByManifest(yaml: Yaml, processed: ProcessedFiles) returns (groups: seq<GroupedFile>)
    requires yaml.Lawful()
    ensures Grouped(yaml, processed, groups)
  {
    var activeChanges := CollectChanges(yaml, processed.activeFiles);
    var deletedChanges := CollectChanges(yaml, processed.deletedFiles);
    ChangesAreCollected(yaml, processed.activeFiles);
    ChangesAreCollected(yaml, processed.deletedFiles);
    groups := GroupAllActive(yaml, processed, activeChanges, deletedChanges);
    groups := GroupDeleted(yaml, processed, activeChanges, deletedChanges, groups);
  }

  // Maps are walked in any order.
  method GroupAllActive(yaml: Yaml, processed: ProcessedFiles,
      activeChanges: map<GroupKey, ManifestChange>, deletedChanges: map<GroupKey, ManifestChange>)
    returns (groups: seq<GroupedFile>)
    requires yaml.Lawful()
    requires Collected(yaml, processed.activeFiles, activeChanges)
    requires Collected(yaml, processed.deletedFiles, deletedChanges)
    ensures GroupsFor(groups, activeChanges, deletedChanges, activeChanges.Keys)
  {
    hide GroupsFor, Collected, GroupOf;
    groups := [];
    NoGroups(activeChanges, deletedChanges);
    ghost var done: set<GroupKey> := {};
    var todo := activeChanges.Keys;
    while todo != {}
      invariant done !! todo && done + todo == activeChanges.Keys
      invariant GroupsFor(groups, activeChanges, deletedChanges, done)
      decreases |todo|
    {
      var key :| key in todo;
      todo := todo - {key};
      var group := GroupActive(yaml, processed, activeChanges, deletedChanges, key);
      AddGroup(groups, activeChanges, deletedChanges, done, key, group);
      groups := groups + AsList(group);
      done := done + {key};
    }
    assert done == activeChanges.Keys;
  }

  method GroupDeleted(yaml: Yaml, processed: ProcessedFiles,
      activeChanges: map<GroupKey, ManifestChange>, deletedChanges: map<GroupKey, ManifestChange>,
      initial: seq<GroupedFile>)
    returns (groups: seq<GroupedFile>)
    requires Collected(yaml, processed.deletedFiles, deletedChanges)
    requires GroupsFor(initial, activeChanges, deletedChanges, activeChanges.Keys)
    ensures GroupsFor(groups, activeChanges, deletedChanges, activeChanges.Keys + deletedChanges.Keys)
  {
    hide GroupsFor, Collected, GroupOf, GroupedBut;
    groups := initial;
    var todo := deletedChanges.Keys;
    GroupedButAll(groups, activeChanges, deletedChanges);
    while todo != {}
      invariant todo <= deletedChanges.Keys
      invariant GroupedBut(groups, activeChanges, deletedChanges, todo)
      decreases |todo|
    {
      var key :| key in todo;
      AddDeleted(yaml, processed.deletedFiles, groups, activeChanges, deletedChanges, todo, key);
      var group := if key !in activeChanges then Some(Destroy(deletedChanges[key])) else None;
      groups := groups + AsList(group);
      todo := todo - {key};
    }
    GroupedButNone(groups, activeChanges, deletedChanges);
  }

  // Every key has its group, save the deleted ones still to do.
  ghost predicate GroupedBut(groups: seq<GroupedFile>,
      active: map<GroupKey, ManifestChange>, deleted: map<GroupKey, ManifestChange>, todo: set<GroupKey>) {
    GroupsFor(groups, active, deleted, active.Keys + (deleted.Keys - todo))
  }

  lemma GroupedButAll(
      groups: seq<GroupedFile>, active: map<GroupKey, ManifestChange>, deleted: map<GroupKey, ManifestChange>)
    requires GroupsFor(groups, active, deleted, active.Keys)
    ensures GroupedBut(groups, active, deleted, deleted.Keys)
  {
    assert active.Keys + (deleted.Keys - deleted.Keys) == active.Keys;
  }

  lemma GroupedButNone(
      groups: seq<GroupedFile>, active: map<GroupKey, ManifestChange>, deleted: map<GroupKey, ManifestChange>)
    requires GroupedBut(groups, active, deleted, {})
    ensures GroupsFor(groups, active, deleted, active.Keys + deleted.Keys)
  {
    assert active.Keys + (deleted.Keys - {}) == active.Keys + deleted.Keys;
  }

  lemma AddDeleted(yaml: Yaml, files: seq<FileChange>, groups: seq<GroupedFile>,
      active: map<GroupKey, ManifestChange>, deleted: map<GroupKey, ManifestChange>, todo: set<GroupKey>, key: GroupKey)
    requires Collected(yaml, files, deleted)
    requires todo <= deleted.Keys && key in todo
    requires GroupedBut(groups, active, deleted, todo)
    ensures
      var group := if key !in active then Some(Destroy(deleted[key])) else None;
      GroupedBut(groups + AsList(group), active, deleted, todo - {key})
  {
    hide GroupsFor, Collected, GroupOf;
    OneKeyLess(active.Keys, deleted.Keys, todo, key);
    if key !in active {
      OnlyDeleted(yaml, files, active, deleted, key);
      AddGroup(groups, active, deleted, active.Keys + (deleted.Keys - todo), key, Some(Destroy(deleted[key])));
    } else {
      assert groups + [] == groups;
    }
  }

  lemma OneKeyLess<K>(a: set<K>, d: set<K>, todo: set<K>, key: K)
    requires key in todo && todo <= d
    ensures a + (d - (todo - {key})) == a + (d - todo) + {key}
    ensures key in a ==> a + (d - todo) + {key} == a + (d - todo)
  {}

  function AsList(group: Option<GroupedFile>): seq<GroupedFile> {
    if group.Some? then [group.value] else []
  }

  // The body of the loop over the active changes.
  method GroupActive(yaml: Yaml, processed: ProcessedFiles,
      activeChanges: map<GroupKey, ManifestChange>, deletedChanges: map<GroupKey, ManifestChange>, key: GroupKey)
    returns (group: Option<GroupedFile>)
    requires yaml.Lawful() && key in activeChanges
    requires Collected(yaml, processed.activeFiles, activeChanges)
    requires Collected(yaml, processed.deletedFiles, deletedChanges)
    ensures group == GroupOf(activeChanges, deletedChanges, key)
    ensures group.Some? ==> group.value.key == key
  {
    var activeChange := activeChanges[key];
    if key in deletedChanges {
      var deletedChange := deletedChanges[key];
      if && activeChange.content == deletedChange.content
         && activeChange.file.content == deletedChange.file.content
         && activeChange.file.path != deletedChange.file.path
      {
        return Some(Rename(activeChange));
      }
      if activeChange.content == deletedChange.content {
        return None;
      }
      // a branch for different regions would be dead: both contents carry the region of the key
      RegionsAgree(yaml, processed.activeFiles, processed.deletedFiles, activeChanges, deletedChanges, key);
      assert yaml.region(activeChange.content) == yaml.region(deletedChange.content);
    }
    return Some(Apply(activeChange));
  }

  lemma OnlyDeleted(
      yaml: Yaml, files: seq<FileChange>, active: map<GroupKey, ManifestChange>, deleted: map<GroupKey, ManifestChange>,
      key: GroupKey)
    requires Collected(yaml, files, deleted) && key in deleted && key !in active
    ensures GroupOf(active, deleted, key) == Some(Destroy(deleted[key]))
    ensures Destroy(deleted[key]).key == key
  {}

  lemma NoGroups(active: map<GroupKey, ManifestChange>, deleted: map<GroupKey, ManifestChange>)
    ensures GroupsFor([], active, deleted, {})
  {}

  lemma AddGroup(
      groups: seq<GroupedFile>, active: map<GroupKey, ManifestChange>, deleted: map<GroupKey, ManifestChange>,
      keys: set<GroupKey>, key: GroupKey, group: Option<GroupedFile>)
    requires GroupsFor(groups, active, deleted, keys) && key !in keys
    requires group == GroupOf(active, deleted, key)
    requires group.Some? ==> group.value.key == key
    ensures GroupsFor(groups + AsList(group), active, deleted, keys + {key})
  {
    var grown := groups + AsList(group);
    forall i | 0 <= i < |groups| ensures groups[i].key != key {
      assert groups[i] in groups;
    }
    assert forall g :: g in grown <==> g in groups || group == Some(g);
  }

  // -- The groups in terms of the changes ----------------------------------------------------------

  ghost predicate Renamed(active: map<GroupKey, ManifestChange>, deleted: map<GroupKey, ManifestChange>, k: GroupKey) {
    && k in active && k in deleted
    && active[k].content == deleted[k].content
    && active[k].file.content == deleted[k].file.content
    && active[k].file.path != deleted[k].file.path
  }

  ghost predicate Changed(active: map<GroupKey, ManifestChange>, deleted: map<GroupKey, ManifestChange>, k: GroupKey) {
    k in active && (k in deleted ==> active[k].content != deleted[k].content)
  }

  // The groups are exactly these: a rename with the new file for equal content and bytes under
  // another path, an apply with the new file for content the old side lacks, a destroy with the
  // old file for keys of the old side alone.
  lemma GroupsAre(yaml: Yaml, processed: ProcessedFiles, groups: seq<GroupedFile>, g: GroupedFile)
    requires Grouped(yaml, processed, groups)
    ensures
      var active, deleted := Changes(yaml, processed.activeFiles), Changes(yaml, processed.deletedFiles);
      var k := g.key;
      g in groups <==>
        || (Renamed(active, deleted, k)
              && g == GroupedFile(k, None, None, Some((active[k].file, active[k].content))))
        || (Changed(active, deleted, k)
              && g == GroupedFile(k, Some((active[k].file, active[k].content)), None, None))
        || (k in deleted && k !in active
              && g == GroupedFile(k, None, Some((deleted[k].file, deleted[k].content)), None))
  {
    hide Changes, FoundIn, Yaml.Documents;
    ChangesAreCollected(yaml, processed.activeFiles);
    ChangesAreCollected(yaml, processed.deletedFiles);
  }

  // No key has two groups.
  lemma GroupsAreOnePerKey(yaml: Yaml, processed: ProcessedFiles, groups: seq<GroupedFile>)
    requires Grouped(yaml, processed, groups)
    ensures forall i, j | 0 <= i < j < |groups| :: groups[i].key != groups[j].key
  {}

  // -- The documents of a text ------------------------------------------------------------------------

  // Cutting a text is reading its pieces one by one: an empty piece and one that is no manifest
  // give nothing.
  lemma {:induction false} DocumentsOfPieces(yaml: Yaml, ps: seq<string>, qs: seq<string>)
    ensures yaml.ReadAll(ps + qs) == yaml.ReadAll(ps) + yaml.ReadAll(qs)
  {
    if qs == [] {
      assert ps + qs == ps;
    } else {
      var rest := qs[..|qs| - 1];
      assert (ps + qs)[..|ps + qs| - 1] == ps + rest;
      DocumentsOfPieces(yaml, ps, rest);
    }
  }

  lemma DocumentOfPiece(yaml: Yaml, p: string)
    ensures p == "" || yaml.read(p).None? ==> yaml.ReadAll([p]) == []
    ensures p != "" && yaml.read(p).Some? ==> yaml.ReadAll([p]) == [yaml.read(p).value]
  {
    assert [p][..0] == [];
  }

  // A change is found by its document and carries the document's key and content and the file.
  lemma ChangesOfFile(yaml: Yaml, file: FileChange, i: nat)
    ensures
      var docs := yaml.Documents(file.content);
      && |ChangesIn(docs, file)| == |docs|
      && (i < |docs| ==> ChangesIn(docs, file)[i] == ManifestChange(docs[i].key, docs[i].content, file))
  {}

  // A file's last change of a key replaces those of earlier files.
  lemma LaterFileWins(yaml: Yaml, files: seq<FileChange>, file: FileChange, j: nat)
    requires
      var docs := yaml.Documents(file.content);
      j < |docs| && forall i | j < i < |docs| :: docs[i].key != docs[j].key
    ensures
      var doc, all := yaml.Documents(file.content)[j], Changes(yaml, files + [file]);
      doc.key in all && all[doc.key] == ManifestChange(doc.key, doc.content, file)
  {
    hide Yaml.Documents, Inserting;
    assert (files + [file])[..|files|] == files;
    LastInsertedStands(Changes(yaml, files), ChangesIn(yaml.Documents(file.content), file), j);
  }

  // Keys that it does not hold keep theirs.
  lemma OtherFilesStand(yaml: Yaml, files: seq<FileChange>, file: FileChange, k: GroupKey)
    requires forall d | d in yaml.Documents(file.content) :: d.key != k
    ensures
      var was, all := Changes(yaml, files), Changes(yaml, files + [file]);
      (k in all <==> k in was) && (k in was ==> all[k] == was[k])
  {
    hide Yaml.Documents, Inserting;
    assert (files + [file])[..|files|] == files;
    var docs := yaml.Documents(file.content);
    forall c | c in ChangesIn(docs, file) ensures c.key != k {
      var i :| 0 <= i < |docs| && ChangesIn(docs, file)[i] == c;
      assert docs[i] in docs;
    }
    NotInserted(Changes(yaml, files), ChangesIn(docs, file), k);
  }

  lemma {:induction false} NotInserted(before: map<GroupKey, ManifestChange>, found: seq<ManifestChange>, k: GroupKey)
    requires forall c | c in found :: c.key != k
    ensures k in Inserting(before, found) <==> k in before
    ensures k in before ==> k in Inserting(before, found) && Inserting(before, found)[k] == before[k]
  {
    if found != [] {
      NotInserted(before, found[..|found| - 1], k);
    }
  }
}
