// Two changes of a repository after which the deployed manifests differ from the declared ones.

module GitDivergence {
  import opened Wrappers
  import opened GitOps
  import opened GitConvergence
  import opened GitFrontEnds

  const OLD_TEXT := "kept---old"
  const NEW_TEXT := "kept---new"

  function DocumentOf(name: string): Document {
    Document(GroupKey("v1", "Stack", name, "default", "eu"), name)
  }

  // Each piece of a text is a manifest of that name.
  function SmallYaml(): Yaml {
    Yaml(
      text => if text == OLD_TEXT then ["kept", "old"] else if text == NEW_TEXT then ["kept", "new"] else [text],
      piece => if piece == "" then None else Some(DocumentOf(piece)),
      content => "eu")
  }

  lemma DocumentsOfTexts()
    ensures SmallYaml().Lawful()
    ensures SmallYaml().Documents(OLD_TEXT) == [DocumentOf("kept"), DocumentOf("old")]
    ensures SmallYaml().Documents(NEW_TEXT) == [DocumentOf("kept"), DocumentOf("new")]
  {
    NamesDiffer();
    TwoDocuments("kept", "old");
    TwoDocuments("kept", "new");
  }

  lemma TwoDocuments(first: string, second: string)
    requires first != "" && second != ""
    ensures SmallYaml().ReadAll([first, second]) == [DocumentOf(first), DocumentOf(second)]
  {
    var yaml := SmallYaml();
    assert [first, second][..1] == [first] && [first][..0] == [];
    assert yaml.ReadAll([first]) == [DocumentOf(first)];
  }

  // A snapshot with a single file of one of the two texts.
  predicate OneFile(files: Snapshot, path: string, text: string) {
    files == map[path := text] && text in {OLD_TEXT, NEW_TEXT}
  }

  lemma OneFileDeclares(files: Snapshot, path: string, text: string, selected: string -> bool)
    requires OneFile(files, path, text) && selected(path)
    ensures KeysOnce(SmallYaml(), files, selected)
    ensures DocumentOf("old").key in Manifests(SmallYaml(), files, selected) <==> text == OLD_TEXT
  {
    hide Yaml.Documents, SmallYaml, DocumentOf, Manifests;
    var yaml := SmallYaml();
    DocumentsOfTexts();
    NamesDiffer();
    forall p, d | Declares(yaml, files, selected, p, d)
      ensures p == path && d in {DocumentOf("kept"), DocumentOf(if text == OLD_TEXT then "old" else "new")}
    {
    }
    InManifests(yaml, files, selected, DocumentOf("old").key);
    if text == OLD_TEXT {
      assert Declares(yaml, files, selected, path, DocumentOf("old"));
    }
  }

  lemma NamesDiffer()
    ensures OLD_TEXT != NEW_TEXT
    ensures DocumentOf("kept").key != DocumentOf("old").key
    ensures DocumentOf("kept").key != DocumentOf("new").key
    ensures DocumentOf("old").key != DocumentOf("new").key
  {
    assert OLD_TEXT[|OLD_TEXT| - 3] == 'o' && NEW_TEXT[|NEW_TEXT| - 3] == 'n';
    assert "old"[0] == 'o' && "new"[0] == 'n' && "kept"[0] == 'k';
  }

  // -- A rename with edits ----------------------------------------------------------------------

  const OLD_FILE: Snapshot := map["a.yaml" := OLD_TEXT]
  const MOVED_FILE: Snapshot := map["b.yaml" := NEW_TEXT]
  const SAME_FILE: Snapshot := map["a.yaml" := NEW_TEXT]

  lemma PathsAreYaml()
    ensures IsYaml("a.yaml") && IsYaml("b.yaml")
  {
    assert "a.yaml"[1..] == ".yaml" && "b.yaml"[1..] == ".yaml";
  }

  // The manifest is deployed although the new snapshot does not declare it.
  ghost predicate StillDeployed(
    yaml: Yaml, before: Snapshot, after: Snapshot, selected: string -> bool, groups: seq<GroupedFile>, k: GroupKey)
  {
    && BothOnce(yaml, before, after, selected)
    && k in Replay(Manifests(yaml, before, selected), groups)
    && k !in Manifests(yaml, after, selected)
  }

  // Git reports the move of an edited file as one line with a rename status: nothing is done, the
  // manifest the edit dropped stays.
  method RenameWithEdits() returns (groups: seq<GroupedFile>)
    ensures StillDeployed(SmallYaml(), OLD_FILE, MOVED_FILE, DiffFilter(None), groups, DocumentOf("old").key)
  {
    hide SmallYaml, Grouped, Reported, Manifests, IsYaml, KeysOnce, DocumentOf, Mentioned;
    ghost var yaml, selected, k := SmallYaml(), DiffFilter(None), DocumentOf("old").key;
    DocumentsOfTexts();
    var lines := [Line("R090", "a.yaml")];
    var processed := GetDiff(lines, None, At(OLD_FILE), At(MOVED_FILE));
    groups := GroupFilesByManifest(SmallYaml(), processed);
    PathsAreYaml();
    OneFileDeclares(OLD_FILE, "a.yaml", OLD_TEXT, selected);
    OneFileDeclares(MOVED_FILE, "b.yaml", NEW_TEXT, selected);
    NamesDiffer();
    LinesMentionActive(yaml, lines, None, OLD_FILE, MOVED_FILE, k);
    LinesMentionDeleted(yaml, lines, None, OLD_FILE, MOVED_FILE, k);
    UnmentionedStays(yaml, processed, groups, Manifests(yaml, OLD_FILE, selected), k);
  }

  // -- Removed and added again --------------------------------------------------------------------

  const TWO_COMMITS := [Commit([], ["a.yaml"], []), Commit(["a.yaml"], [], [])]

  // One push removes a file and adds it again with other manifests: the file counts as added, so
  // its old text is not looked at.
  method RemovedAndAdded() returns (groups: seq<GroupedFile>)
    ensures StillDeployed(SmallYaml(), OLD_FILE, SAME_FILE, WebhookFilter(None), groups, DocumentOf("old").key)
  {
    hide SmallYaml, Grouped, WebhookOf, Manifests, IsYaml, KeysOnce, DocumentOf, ListedOf, Mentioned;
    ghost var yaml, selected, k := SmallYaml(), WebhookFilter(None), DocumentOf("old").key;
    DocumentsOfTexts();
    var processed := ReportWebhook(TWO_COMMITS, None, OLD_FILE, SAME_FILE);
    groups := GroupFilesByManifest(SmallYaml(), processed);
    PathsAreYaml();
    OneFileDeclares(OLD_FILE, "a.yaml", OLD_TEXT, selected);
    OneFileDeclares(SAME_FILE, "a.yaml", NEW_TEXT, selected);
    NamesDiffer();
    ListedTwice();
    ghost var listed := ListedOf(TWO_COMMITS);
    NewTextHasNoOld(selected, k);
    ListedMentionActive(yaml, OLD_FILE, SAME_FILE, listed, None, processed, k);
    ListedMentionDeleted(yaml, OLD_FILE, SAME_FILE, listed, None, processed, k);
    UnmentionedStays(yaml, processed, groups, Manifests(yaml, OLD_FILE, selected), k);
  }

  lemma NewTextHasNoOld(selected: string -> bool, k: GroupKey)
    requires k == DocumentOf("old").key
    ensures forall p, d | Declares(SmallYaml(), SAME_FILE, selected, p, d) :: d.key != k
  {
    hide SmallYaml, DocumentOf;
    DocumentsOfTexts();
    NamesDiffer();
  }

  lemma ListedTwice()
    ensures ListedOf(TWO_COMMITS) == Listed({"a.yaml"}, {"a.yaml"}, {})
  {
    var listed := ListedOf(TWO_COMMITS);
    assert TWO_COMMITS[0] in TWO_COMMITS && TWO_COMMITS[1] in TWO_COMMITS;
    assert "a.yaml" in TWO_COMMITS[0].removed && "a.yaml" in TWO_COMMITS[1].added;
    assert listed.added == {"a.yaml"} && listed.removed == {"a.yaml"} && listed.modified == {};
  }
}
