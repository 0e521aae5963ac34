// What the groups are for: replaying them takes the manifests of one snapshot to those of the
// next.

module GitConvergence {
  import opened Wrappers
  import opened Json
  import opened GitOps

  // The files of a commit, by path.
  type Snapshot = map<string, string>

  // The deployed manifests, by key.
  type State = map<GroupKey, string>

  function Get<K, V>(m: map<K, V>, k: K): Option<V> {
    if k in m then Some(m[k]) else None
  }

  // -- The manifests of a snapshot ---------------------------------------------------------

  // A selected file of the snapshot declares the manifest.
  ghost predicate Declares(yaml: Yaml, files: Snapshot, selected: string -> bool, path: string, d: Document) {
    path in files && selected(path) && d in yaml.Documents(files[path])
  }

  ghost predicate Declared(yaml: Yaml, files: Snapshot, selected: string -> bool, d: Document) {
    exists path :: Declares(yaml, files, selected, path, d)
  }

  // Each key is declared at most once in the snapshot.
  ghost predicate KeysOnce(yaml: Yaml, files: Snapshot, selected: string -> bool) {
    forall p, q, d, e |
      && Declares(yaml, files, selected, p, d) && Declares(yaml, files, selected, q, e)
      && d.key == e.key ::
      p == q && d == e
  }

  ghost function Manifests(yaml: Yaml, files: Snapshot, selected: string -> bool): (state: State)
    requires KeysOnce(yaml, files, selected)
    ensures forall k, c :: Get(state, k) == Some(c) <==> Declared(yaml, files, selected, Document(k, c))
  {
    var declared := set p, d | p in files && selected(p) && d in yaml.Documents(files[p]) :: d;
    DeclaredIs(yaml, files, selected, declared);
    map k | k in (set d | d in declared :: d.key) :: ContentOf(declared, k)
  }

  lemma InManifests(yaml: Yaml, files: Snapshot, selected: string -> bool, k: GroupKey)
    requires KeysOnce(yaml, files, selected)
    ensures k in Manifests(yaml, files, selected) <==> exists d :: Declared(yaml, files, selected, d) && d.key == k
  {
    hide Manifests, Declared, KeysOnce;
    var state := Manifests(yaml, files, selected);
    if k in state {
      assert Get(state, k) == Some(state[k]);
      assert Declared(yaml, files, selected, Document(k, state[k]));
    }
    if d :| Declared(yaml, files, selected, d) && d.key == k {
      assert d == Document(k, d.content) && Get(state, k) == Some(d.content);
    }
  }

  lemma DeclaredIs(yaml: Yaml, files: Snapshot, selected: string -> bool, declared: set<Document>)
    requires declared == set p, d | p in files && selected(p) && d in yaml.Documents(files[p]) :: d
    ensures forall d :: d in declared <==> Declared(yaml, files, selected, d)
  {
    forall d ensures d in declared <==> Declared(yaml, files, selected, d) {
      if d in declared {
        var p :| p in files && selected(p) && d in yaml.Documents(files[p]);
        assert Declares(yaml, files, selected, p, d);
      }
    }
  }

  ghost function ContentOf(declared: set<Document>, k: GroupKey): string
    requires exists d :: d in declared && d.key == k
  {
    var d :| d in declared && d.key == k;
    d.content
  }

  // -- Replay ------------------------------------------------------------------------------

  // Carrying out one group: apply puts, destroy removes, rename keeps.
  function Carry(state: State, g: GroupedFile): State {
    match (g.active, g.deleted)
    case (Some(a), _) => state[g.key := a.1]
    case (None, Some(_)) => state - {g.key}
    case (None, None) => state
  }

  function Replay(state: State, groups: seq<GroupedFile>): State {
    if groups == [] then state else Carry(Replay(state, groups[..|groups| - 1]), groups[|groups| - 1])
  }

  // What becomes of one key.
  function Outcome(was: Option<string>, group: Option<GroupedFile>): Option<string> {
    match group
    case None => was
    case Some(g) => if g.active.Some? then Some(g.active.value.1) else if g.deleted.Some? then None else was
  }

  lemma CarryAt(state: State, g: GroupedFile, k: GroupKey)
    ensures Get(Carry(state, g), k) == if g.key == k then Outcome(Get(state, k), Some(g)) else Get(state, k)
  {}

  ghost predicate OnlyGroup(groups: seq<GroupedFile>, k: GroupKey, group: Option<GroupedFile>) {
    forall g :: g in groups && g.key == k <==> group == Some(g)
  }

  // Groups of distinct keys do not meet, so each key sees its own group only, in any order.
  lemma {:induction false} ReplayAt(state: State, groups: seq<GroupedFile>, k: GroupKey, group: Option<GroupedFile>)
    requires KeyedOnce(groups) && OnlyGroup(groups, k, group)
    ensures Get(Replay(state, groups), k) == Outcome(Get(state, k), group)
  {
    if groups != [] {
      var rest, last := groups[..|groups| - 1], groups[|groups| - 1];
      DropLast(groups, k, group);
      CarryAt(Replay(state, rest), last, k);
      ReplayAt(state, rest, k, if last.key == k then None else group);
    }
  }

  lemma DropLast(groups: seq<GroupedFile>, k: GroupKey, group: Option<GroupedFile>)
    requires groups != [] && KeyedOnce(groups) && OnlyGroup(groups, k, group)
    ensures
      var last := groups[|groups| - 1];
      && OnlyGroup(groups[..|groups| - 1], k, if last.key == k then None else group)
      && (last.key == k ==> group == Some(last))
  {
    var rest, last := groups[..|groups| - 1], groups[|groups| - 1];
    assert groups == rest + [last];
    forall g | g in rest ensures g.key != last.key {
      var i :| 0 <= i < |rest| && rest[i] == g;
    }
    assert last in groups;
  }

  // -- What a front end has to report --------------------------------------------------------

  // Reported files carry the text of their snapshot, or declare nothing.
  ghost predicate Truthful(yaml: Yaml, files: Snapshot, selected: string -> bool, reported: seq<FileChange>) {
    forall f | f in reported ::
      selected(f.path) && (Get(files, f.path) == Some(f.content) || yaml.Documents(f.content) == [])
  }

  // Differing files are reported on each side that has them; the others on both sides or none.
  ghost predicate Covers(
    yaml: Yaml, before: Snapshot, after: Snapshot, selected: string -> bool, processed: ProcessedFiles)
  {
    && Truthful(yaml, after, selected, processed.activeFiles)
    && Truthful(yaml, before, selected, processed.deletedFiles)
    && (forall p | selected(p) && p in after && Get(before, p) != Get(after, p) ::
          FileChange(p, after[p]) in processed.activeFiles)
    && (forall p | selected(p) && p in before && Get(before, p) != Get(after, p) ::
          FileChange(p, before[p]) in processed.deletedFiles)
    && (forall p | selected(p) && p in after && Get(before, p) == Get(after, p) ::
          FileChange(p, after[p]) in processed.activeFiles <==> FileChange(p, before[p]) in processed.deletedFiles)
  }

  // -- Convergence -----------------------------------------------------------------------------

  // A collected change is declared by its snapshot.
  lemma ChangeIsDeclared(
      yaml: Yaml, files: Snapshot, selected: string -> bool, reported: seq<FileChange>,
      changes: map<GroupKey, ManifestChange>, k: GroupKey)
    requires Truthful(yaml, files, selected, reported) && Collected(yaml, reported, changes) && k in changes
    ensures Declares(yaml, files, selected, changes[k].file.path, Document(k, changes[k].content))
    ensures changes[k].file in reported && Get(files, changes[k].file.path) == Some(changes[k].file.content)
  {
    assert FoundIn(yaml, reported, changes[k]);
  }

  // A manifest ends up right if it is mentioned wherever it has to be: on the new side if its
  // content is new, on the old side if it is gone, and not on the old side alone if it stays.
  predicate SufficesAt(was: State, now: State, isActive: bool, isDeleted: bool, k: GroupKey) {
    && (k in now && Get(was, k) != Get(now, k) ==> isActive)
    && (k in was && k !in now ==> isDeleted)
    && (k in now && isDeleted ==> isActive)
  }

  ghost predicate Suffices(was: State, now: State, active: iset<GroupKey>, deleted: iset<GroupKey>) {
    forall k :: SufficesAt(was, now, k in active, k in deleted, k)
  }

  // The manifests that some reported file holds.
  ghost function Mentioned(yaml: Yaml, reported: seq<FileChange>): iset<GroupKey> {
    iset f: FileChange, d: Document | f in reported && d in yaml.Documents(f.content) :: d.key
  }

  lemma MentionedIsCollected(yaml: Yaml, reported: seq<FileChange>, k: GroupKey)
    ensures k in Mentioned(yaml, reported) <==> k in Changes(yaml, reported)
  {
    ChangesAreCollected(yaml, reported);
    if k in Changes(yaml, reported) {
      var change := Changes(yaml, reported)[k];
      assert FoundIn(yaml, reported, change);
    }
  }

  lemma ConvergesAt(
      yaml: Yaml, before: Snapshot, after: Snapshot, selected: string -> bool, processed: ProcessedFiles,
      active: map<GroupKey, ManifestChange>, deleted: map<GroupKey, ManifestChange>, k: GroupKey)
    requires KeysOnce(yaml, before, selected) && KeysOnce(yaml, after, selected)
    requires Truthful(yaml, after, selected, processed.activeFiles)
    requires Truthful(yaml, before, selected, processed.deletedFiles)
    requires Collected(yaml, processed.activeFiles, active) && Collected(yaml, processed.deletedFiles, deleted)
    ensures
      var was, now := Manifests(yaml, before, selected), Manifests(yaml, after, selected);
      Outcome(Get(was, k), GroupOf(active, deleted, k)) == Get(now, k) <==>
        SufficesAt(was, now, k in active, k in deleted, k)
  {
    hide Manifests, Collected, KeysOnce, Declares;
    var was, now := Manifests(yaml, before, selected), Manifests(yaml, after, selected);
    if k in deleted {
      ChangeIsDeclared(yaml, before, selected, processed.deletedFiles, deleted, k);
      assert Get(was, k) == Some(deleted[k].content);
    }
    if k in active {
      ChangeIsDeclared(yaml, after, selected, processed.activeFiles, active, k);
      assert Get(now, k) == Some(active[k].content);
    }
  }

  // Whatever is reported truthfully: the groups converge exactly when it suffices.
  lemma ConvergesIffSuffices(
      yaml: Yaml, before: Snapshot, after: Snapshot, selected: string -> bool, processed: ProcessedFiles,
      groups: seq<GroupedFile>)
    requires KeysOnce(yaml, before, selected) && KeysOnce(yaml, after, selected)
    requires Truthful(yaml, after, selected, processed.activeFiles)
    requires Truthful(yaml, before, selected, processed.deletedFiles)
    requires Grouped(yaml, processed, groups)
    ensures
      var was, now := Manifests(yaml, before, selected), Manifests(yaml, after, selected);
      Replay(was, groups) == now <==>
        Suffices(was, now, Mentioned(yaml, processed.activeFiles), Mentioned(yaml, processed.deletedFiles))
  {
    hide KeysOnce, Truthful, Collected, Manifests, Changes, GroupOf, Mentioned, SufficesAt;
    var active, deleted := Changes(yaml, processed.activeFiles), Changes(yaml, processed.deletedFiles);
    ChangesAreCollected(yaml, processed.activeFiles);
    ChangesAreCollected(yaml, processed.deletedFiles);
    var was, now := Manifests(yaml, before, selected), Manifests(yaml, after, selected);
    forall k
      ensures Get(Replay(was, groups), k) == Get(now, k) <==>
        SufficesAt(
          was, now, k in Mentioned(yaml, processed.activeFiles), k in Mentioned(yaml, processed.deletedFiles), k)
    {
      KeyOfGroup(yaml, processed, active, deleted, k);
      assert OnlyGroup(groups, k, GroupOf(active, deleted, k));
      ReplayAt(was, groups, k, GroupOf(active, deleted, k));
      ConvergesAt(yaml, before, after, selected, processed, active, deleted, k);
      MentionedIsCollected(yaml, processed.activeFiles, k);
      MentionedIsCollected(yaml, processed.deletedFiles, k);
    }
    if forall k :: Get(Replay(was, groups), k) == Get(now, k) {
      EqualByGet(Replay(was, groups), now);
    }
  }

  // A manifest that no reported file mentions keeps its state, whatever the groups do elsewhere.
  lemma UnmentionedStays(yaml: Yaml, processed: ProcessedFiles, groups: seq<GroupedFile>, state: State, k: GroupKey)
    requires Grouped(yaml, processed, groups)
    requires k !in Mentioned(yaml, processed.activeFiles) && k !in Mentioned(yaml, processed.deletedFiles)
    ensures Get(Replay(state, groups), k) == Get(state, k)
  {
    hide Mentioned, Changes;
    MentionedIsCollected(yaml, processed.activeFiles, k);
    MentionedIsCollected(yaml, processed.deletedFiles, k);
    assert OnlyGroup(groups, k, None);
    ReplayAt(state, groups, k, None);
  }

  lemma KeyOfGroup(
      yaml: Yaml, processed: ProcessedFiles,
      active: map<GroupKey, ManifestChange>, deleted: map<GroupKey, ManifestChange>, k: GroupKey)
    requires Collected(yaml, processed.activeFiles, active) && Collected(yaml, processed.deletedFiles, deleted)
    ensures GroupOf(active, deleted, k).Some? ==>
      GroupOf(active, deleted, k).value.key == k && k in active.Keys + deleted.Keys
  {
    hide FoundIn, Yaml.Documents;
  }

  lemma EqualByGet(x: State, y: State)
    requires forall k :: Get(x, k) == Get(y, k)
    ensures x == y
  {
    forall k ensures k in x <==> k in y {
      assert Get(x, k) == Get(y, k);
    }
    forall k | k in x && k in y ensures x[k] == y[k] {
      assert Get(x, k) == Get(y, k);
    }
    EqualByLookup(x, y);
  }

  // -- A covering report suffices ----------------------------------------------------------------

  lemma CoveringSuffices(
      yaml: Yaml, before: Snapshot, after: Snapshot, selected: string -> bool, processed: ProcessedFiles)
    requires KeysOnce(yaml, before, selected) && KeysOnce(yaml, after, selected)
    requires Covers(yaml, before, after, selected, processed)
    ensures Suffices(
      Manifests(yaml, before, selected), Manifests(yaml, after, selected),
      Mentioned(yaml, processed.activeFiles), Mentioned(yaml, processed.deletedFiles))
  {
    hide Manifests, Covers, KeysOnce;
    var was, now := Manifests(yaml, before, selected), Manifests(yaml, after, selected);
    forall k
      ensures SufficesAt(
        was, now, k in Mentioned(yaml, processed.activeFiles), k in Mentioned(yaml, processed.deletedFiles), k)
    {
      if k in now && k !in Mentioned(yaml, processed.activeFiles) {
        KeptManifest(yaml, before, after, selected, processed, Document(k, now[k]));
        assert Get(was, k) == Some(now[k]);
      }
      if k in was && k !in Mentioned(yaml, processed.deletedFiles) {
        StillThere(yaml, before, after, selected, processed, Document(k, was[k]));
        assert Get(now, k) == Some(was[k]);
      }
    }
  }

  // A manifest of the new snapshot that no active file mentions is untouched.
  lemma KeptManifest(
      yaml: Yaml, before: Snapshot, after: Snapshot, selected: string -> bool, processed: ProcessedFiles, d: Document)
    requires KeysOnce(yaml, before, selected)
    requires Covers(yaml, before, after, selected, processed)
    requires d.key !in Mentioned(yaml, processed.activeFiles) && Declared(yaml, after, selected, d)
    ensures d.key !in Mentioned(yaml, processed.deletedFiles) && Declared(yaml, before, selected, d)
  {
    var p :| Declares(yaml, after, selected, p, d);
    assert FileChange(p, after[p]) !in processed.activeFiles;
    assert Get(before, p) == Get(after, p);
    assert Declares(yaml, before, selected, p, d);
    if d.key in Mentioned(yaml, processed.deletedFiles) {
      var f, e :| f in processed.deletedFiles && e in yaml.Documents(f.content) && e.key == d.key;
      assert Declares(yaml, before, selected, f.path, e);
      assert false;
    }
  }

  // A manifest of the old snapshot that no deleted file mentions is still declared.
  lemma StillThere(
      yaml: Yaml, before: Snapshot, after: Snapshot, selected: string -> bool, processed: ProcessedFiles, d: Document)
    requires Covers(yaml, before, after, selected, processed)
    requires d.key !in Mentioned(yaml, processed.deletedFiles) && Declared(yaml, before, selected, d)
    ensures Declared(yaml, after, selected, d)
  {
    var p :| Declares(yaml, before, selected, p, d);
    assert FileChange(p, before[p]) !in processed.deletedFiles;
    assert Get(before, p) == Get(after, p);
    assert Declares(yaml, after, selected, p, d);
  }

  // Whatever front end reported the changes: if it covers the difference, the groups converge.
  lemma GroupsConverge(
      yaml: Yaml, before: Snapshot, after: Snapshot, selected: string -> bool, processed: ProcessedFiles,
      groups: seq<GroupedFile>)
    requires KeysOnce(yaml, before, selected) && KeysOnce(yaml, after, selected)
    requires Covers(yaml, before, after, selected, processed)
    requires Grouped(yaml, processed, groups)
    ensures Replay(Manifests(yaml, before, selected), groups) == Manifests(yaml, after, selected)
  {
    hide KeysOnce, Manifests, Grouped, Suffices;
    CoveringSuffices(yaml, before, after, selected, processed);
    ConvergesIffSuffices(yaml, before, after, selected, processed, groups);
  }
}
