# Verified model of the InfraWeave control plane's algorithms

A Dafny model of the parts of the control plane that are algorithms and state machines rather than
calls into cloud SDKs. Code that updates things step by step is modelled by methods and classes with
loops over the same state; each is proved against a specification that does not mention how it works,
and the specifications are then related to each other by lemmas.

`dafny verify dfyconfig.toml` checks the whole project.

## What is modelled

**The dependency-graph simplifier** (`graph/src/lib.rs`). `GraphSimplifier.ProcessGraph` goes the whole
way from the raw nodes and edges of a Terraform graph to the drawn nodes and edges:

- `ModuleTree`, `GraphNodes`: which addresses become nodes, which module groups they create, who is
  whose parent. The scan over the parts of an address is proved equal to a prefix-closed hierarchy;
  from that follows that parents do not depend on the address that introduced a group, and that group
  ids and resource ids never meet.
- `GraphPhases`, `Reachability`: labelled and implicit nodes, the worklist that finds what the seeds
  depend on (exactly the reachable set, on any graph), the root groups, the two adjacency maps.
- `GroupPruning`: the retain-until-stable loop keeps exactly the groups with a resource below.
- `Resolver`: the memoised, cycle-breaking contraction of variables, locals and outputs. Its
  specification `Network.Source` speaks about paths alone: the ends that are reached through
  contracted nodes, a root variable or root output only if nothing lies beyond it. The cached
  recursion agrees with an uncached one, and that one with the paths, for every node from which no
  cycle of contracted nodes is reached; termination, soundness and the stack need no condition.
- `ResolverCompleteness`: what the resolver finds on cyclic maps.
- `GraphSimplifier`: edges, final filters, deduplication, and the theorems about the output.
- `GraphMeaning`: what kinds, nodes, module paths and edges are in terms of addresses and the plan.
- `GraphCycles`, `GraphConfig`: two inputs for which the drawing is not what it should be.

`PlanValues` is the three-way merge of planned values, with non-interference of what is marked
sensitive. `BlockScanner` is the quote, escape and brace scanner behind `extract_block_from_content`;
its specification counts backslash runs, delimiters and depth and knows no scanner state.

**The plan diff and sanitiser** (`defs/src/resource_change.rs`). `PlanDiff` specifies by lookups which
paths are recorded with what; `DiffRecorder` models the recorder, which inserts dotted paths into a
shared map, with the order of the keys at every level as a parameter; `PlanPatch` patches
the recorded changes back, in any order; `PlanSanitizer` treats the marker-driven filter.

**The GitOps reconciler** (`gitops/src`). `GitOps` models reading and grouping manifests,
`GitConvergence` replays groups on a map from manifest keys to contents, `GitFrontEnds` models
`get_diff` and the webhook and composes each with the grouping, `GitDivergence` holds two pushes for
which the result is wrong.

**The credential cache** (`env_aws_direct/src/central_creds.rs`). `Credentials` is a state machine of
any number of tasks around one read-write lock, with every interleaving a sequence of steps; the key
type is a parameter, so that accounts and publish scopes are two instances. `CredentialRuns` ties what
tasks are told to the times, regions and expiries of the steps.

**Run-to-completion machines.** `Agent` is the chat agent's tool loop against any model and any tools;
`Poller` the job reporter and the polling loop against any trace of observations.

**The attribute codec** (`env_aws_direct/src/direct_impl.rs`). `Decimal` prints and parses 64-bit
integers, `AttributeCodec` converts nested values and whole items both ways.

`Json` and `Strings` hold the shared data: JSON values, split and join at dots, the order of strings,
sort-and-dedup.

Conventions: hash iteration order is a nondeterministic choice (`:|`) of the next element, so every
contract holds for all orders. Calls to the outside are parameters: the language model and the tools,
observations of jobs, file contents at a git reference, the YAML reader, the parse of a DOT id. Clock
values are parameters of the steps that read them.

## Findings

Places where the code keeps less than one could expect of it. For these the exact condition is proved
and an input is given:

- Diff and patch: the recorded changes rebuild the new value if and only if no member that differs is
  null in the new value, since a null record also stands for a removal (`PlanPatch.ApplyPatch`,
  `PlanPatch.NullIsLost`). Removals, and a null for the whole value, do no harm.
- Key order: the recorded map depends on hash order if and only if two recorded paths with different
  contents have the same path string, as a dotted key and a nested one can
  (`DiffRecorder.OrderIsImmaterialIffNoClash`, `DiffRecorder.DottedKeysCollide`).
- GitOps: the groups of any truthful report converge if and only if it mentions every manifest that
  needs it (`GitConvergence.ConvergesIffSuffices`, and over lines and listed sets
  `GitFrontEnds.DiffConvergesIff` and `GitFrontEnds.WebhookConvergesIff`). A rename with edits, and a
  file removed and added again in one push, leave a dropped manifest deployed
  (`GitDivergence.RenameWithEdits`, `GitDivergence.RemovedAndAdded`).
- Polling: the last round alone decides, so the verdict covers all rounds if and only if some job fails
  in the last one or none failed before (`Poller.VerdictCoversAllRoundsIff`,
  `Poller.FailureIsForgotten`).
- Configured dependencies: an edge starts in an output resource if and only if its source was retained
  as a node, which a configured reference need not be (`GraphSimplifier.ProcessGraph`,
  `GraphConfig.ConfiguredSourceIsMissing`). If every configured dependency is an edge of the graph, all
  sources are.
For one only a sufficient condition is proved:

- Cycles: for a node from which a cycle of contracted nodes is reached the resolver's answer, and with it
  the drawing, can depend on what was asked before (`GraphCycles.CyclesDependOnTheOrder`). It is exact
  for all other nodes. On a cycle, too, a node asked first finds every resource, and only entries left by
  earlier calls can lose one (`ResolverCompleteness.FirstAnswerIsComplete`,
  `ResolverCompleteness.AnswerIsComplete`).

And one branch cannot be reached:

- `GitOps.RegionsAgree`: the branch for a changed region is dead, because the region is part of the key
  both sides were found under.

## Model

| member | source | states |
|---|---|---|
| GraphSimplifier.ProcessGraph | graph/src/lib.rs:854-1515 | End to end, for any raw graph, any configured dependencies and any hash order. Nodes, with no address named like a root group: the output is a nested graph whose resources are the nodes of their addresses; a retained address is one of them if and only if it is a resource, a data source, starts with `output.`, is a root variable without dependencies, or is an end of an edge. Edges: none repeats a pair or an id; each goes from a terminal, reached from a dependency through contracted nodes, into a resource, data source or root output; the edges into a node are exactly the path-based ones unless a cycle of contracted nodes is reached from its dependencies; each ends in a resource of the output, starts in one if and only if its source is a retained address, and always does when every configured dependency is an edge of the graph |
| GraphSimplifier.PrepareNetwork | graph/src/lib.rs:854-1288 | The dependency map is the raw edges between known addresses without self-loops, and the configured pairs; the typed nodes are exactly the created ones minus variables and locals no seed reaches |
| GraphSimplifier.SimplifyEdges | graph/src/lib.rs:1290-1335 | The edges are those of some order of the nodes with one shared cache; in any order they are sound on every map, and exact into every node that no cycle of contracted nodes is reached from; active nodes are the drawn ones and the found sources |
| GraphSimplifier.SourcesOf | graph/src/lib.rs:1322-1334 | The sources of all dependencies without the node itself, whatever the cache held before |
| GraphSimplifier.FinishNodes | graph/src/lib.rs:1428-1513 | After hiding contracted nodes, pruning and deduplication the nodes form a nested graph that has lost no visible resource |
| GraphSimplifier.RetainUsedGroups | graph/src/lib.rs:1479-1504 | The last retain removes nothing once the pruning loop is stable |
| GraphSimplifier.NumberEdges | graph/src/lib.rs:1409-1426 | Every joined pair gets exactly one edge, and edge numbers are distinct |
| GraphSimplifier.Deduplicate | graph/src/lib.rs:1506-1513 | Every node id is kept, with the first node that had it |
| GraphSimplifier.SameIdSameNode | graph/src/lib.rs:1506-1513 | Nodes with equal ids are equal, so deduplication loses nothing, groups and parents included |
| GraphSimplifier.DeduplicatedIsNested | graph/src/lib.rs:1453-1513 | Every node of the output hangs below a group of the output that has all its other ancestors, and the groups are exactly the ancestors of its resources |
| GraphSimplifier.HangsBelow | graph/src/lib.rs:207-277 | The ancestors of a node are those of its parent and the parent, so following parents is well-founded |
| GraphSimplifier.SurvivorsAreRooted | graph/src/lib.rs:1453-1476 | Pruning leaves no dangling parent and no group without a resource below |
| GraphSimplifier.EndsAreRetained | graph/src/lib.rs:911-974 | With the dependencies of the graph alone, no edge starts in a node the reachability prune dropped, nor in a contracted one |
| GraphSimplifier.TargetIsTyped | graph/src/lib.rs:1294-1320 | With any dependencies, no edge ends in a dropped or a contracted node |
| GraphSimplifier.TargetIsSeed | graph/src/lib.rs:921-936 | Whatever takes edges is a seed of the reachability analysis |
| GraphSimplifier.DrawnInTerms | graph/src/lib.rs:1296-1320 | The test of the loop over nodes, module outputs aside: a node is active exactly if it is a resource, a data source, starts with `output.`, or is a root variable without dependencies |
| GraphSimplifier.SeedIffNeeds | graph/src/lib.rs:921-936 | Seeds are exactly the created resources, data sources and addresses under `output.` |
| GraphMeaning.EdgesAre | graph/src/lib.rs:1092-1335 | The edges that should be drawn, by kinds, prefixes and paths alone: into a resource, data source or root output, from what ways through variables, locals and outputs lead to, if that is a resource or data source, or a root variable or output from which no such end can be reached |
| GraphMeaning.KindIsNamedByParts | graph/src/lib.rs:165-204 | The kind of an address is named by the first of its parts that is `var`, `local` or `output`; without one it is a data source by flag, by its third part from the end or by prefix, else a resource |
| GraphMeaning.NodesAre | graph/src/lib.rs:364-507 | Which addresses are nodes, by prefix, module path, plan, state and kind |
| GraphMeaning.NodesHave | graph/src/lib.rs:509-543 | The id, kind and parent of a node |
| GraphMeaning.AddressesAre | graph/src/lib.rs:855-905 | A DOT id stands for its last label that is a node, else for its parse |
| GraphMeaning.CreatedAre | graph/src/lib.rs:855-905 | Resources are created for every label that is a node and for the parse of every unlabelled end of an edge |
| GraphMeaning.HierarchyIsPairs | graph/src/lib.rs:220-238 | The module paths are the prefixes that end in a module pair, where a part `module` starts a pair exactly after an even run of such parts |
| GraphSimplifier.ShownIsVisible | graph/src/lib.rs:1402-1450 | The final filter keeps exactly the drawn nodes and the ends of edges, module outputs excepted |
| GraphSimplifier.TypesAreKinds | graph/src/lib.rs:1070-1078 | The type map holds the kind of every resource whatever order it was filled in |
| Resolver.DependencyResolver.Resolve | graph/src/lib.rs:1092-1203 | On every map, cyclic ones included: terminates, restores the stack, and returns a sorted list of terminals reached through contracted nodes; for a node from which no cycle of contracted nodes is reached the elements are the uncached specification, whatever calls came before and whatever cycles there are elsewhere, and every cache entry of such a node stays equal to it |
| Resolver.DependencyResolver.ResolveAll | graph/src/lib.rs:1141-1146 | The same for the loop over the dependencies with the node on the stack |
| Resolver.DependencyResolver.Remember | graph/src/lib.rs:1176-1179 | Sorting and deduplicating keep the elements, and the cache gains this entry alone |
| Resolver.Network.SrcIsExactlySource | graph/src/lib.rs:1113-1202 | Wherever no cycle is reached, the uncached recursion yields exactly the terminals reached through contracted nodes, a root variable or output only when nothing lies beyond it |
| Resolver.Network.SrcIsSource | graph/src/lib.rs:1113-1202 | Soundness of the recursion against the paths |
| Resolver.Network.SourceIsSrc | graph/src/lib.rs:1113-1202 | Completeness of the recursion against the paths |
| Resolver.Network.ExtendsIffBeyond | graph/src/lib.rs:1158-1174 | A node has an empty union of dependency sources exactly when no path leads on to another terminal |
| Resolver.Network.SettledBelow | graph/src/lib.rs:1139-1146 | If no cycle is reached from a contracted node, none is from its dependencies, and what lies below them is strictly less |
| ResolverCompleteness.FirstAnswerIsComplete | graph/src/lib.rs:1092-1203 | On every map, cyclic ones included, a node asked first finds every resource that contracted nodes lead to |
| ResolverCompleteness.AnswerIsComplete | graph/src/lib.rs:1099-1105 | Whatever the cache, a resource at the end of a path that avoids cached nodes is found, so only entries left by earlier calls can lose one |
| ResolverCompleteness.AnswerExplores | graph/src/lib.rs:1141-1146 | Every node a call expands has all its dependencies on the stack, cached, expanded or found |
| GraphCycles.EdgesDependOnTheOrder | graph/src/lib.rs:1290-1335 | Two module outputs on a cycle: visiting the resources behind them in one order loses an edge that the other order draws |
| GraphCycles.CyclesDependOnTheOrder | graph/src/lib.rs:1290-1335 | A plan and a graph, with addresses typed as the code types them, whose drawing depends in this way on the order of the nodes |
| GraphConfig.ConfiguredSourceIsMissing | graph/src/lib.rs:1211-1288 | A run on a configured output whose edge starts in an address that is no resource of the output |
| Strings.SortDedup | graph/src/lib.rs:1176-1177 | Sort and dedup give a strictly sorted list of the same elements |
| Strings.SortedIsCanonical | graph/src/lib.rs:1176-1177 | A strictly sorted list is determined by its elements, so cached lists do not depend on order |
| Strings.SplitJoin | graph/src/lib.rs:216-238 | Splitting joined dot-free parts gives the parts back |
| Strings.JoinSplit | graph/src/lib.rs:216-238 | Joining the parts of any string gives the string back |
| Reachability.Visit | graph/src/lib.rs:938-951 | The worklist terminates on every graph and visits exactly what some seed reaches |
| Reachability.MarkingVisit | graph/src/lib.rs:941-950 | One step keeps the marking invariant and shrinks what is still unvisited |
| Reachability.MarkingDone | graph/src/lib.rs:941-950 | With an empty queue the visited set is exactly the reachable set |
| Reachability.ClosedContainsReached | graph/src/lib.rs:941-950 | A set closed under the edges contains everything its members reach |
| ModuleTree.CollectPaths | graph/src/lib.rs:216-238 | The scanning loop collects exactly the module paths of an address, outermost first |
| ModuleTree.PathParsesToItself | graph/src/lib.rs:207-277 | Parsing any collected module path yields its own prefix of the hierarchy, so the parent of a group is the same for every address that introduces it |
| ModuleTree.EndsOfPrefix | graph/src/lib.rs:220-238 | Cutting an address after a module pair cuts the list of pairs at the same place |
| ModuleTree.WalkFrom | graph/src/lib.rs:220-238 | The running path string of the scan is the join of the parts read so far |
| ModuleTree.WalkDropsEmpty | graph/src/lib.rs:223-235 | Leading empty parts leave no trace in the collected paths |
| GraphNodes.NodeTable.ExtractParentModules | graph/src/lib.rs:240-277 | Every module of the address has its group afterwards, created once and with the right parent; nothing else is added |
| GraphNodes.NodeTable.CreateNode | graph/src/lib.rs:353-543 | Which addresses become nodes, with which kind and parent; the module groups above a created node are all known |
| GraphNodes.NodeForIsPlaced | graph/src/lib.rs:373-382 | A resource's parent is its innermost ancestor and its id is not a module path |
| GraphNodes.AppendGroup | graph/src/lib.rs:245-274 | Adding a module group keeps the table: groups once each, parents present, ids disjoint |
| GraphNodes.AppendResource | graph/src/lib.rs:863-877 | Adding a resource whose modules are known keeps the table |
| GraphPhases.BuildNodes | graph/src/lib.rs:854-909 | In any endpoint order the resources are exactly the created addresses, the last label of a DOT id wins, and only unlabelled endpoints are parsed |
| GraphPhases.Adjacency | graph/src/lib.rs:1080-1089 | The adjacency is exactly the raw edges between known addresses, self-loops kept or dropped |
| GraphPhases.AugmentDeps | graph/src/lib.rs:1284-1287 | The dependency map gains exactly the configured pairs |
| GraphPhases.RetainReached | graph/src/lib.rs:953-974 | Exactly the variables and locals no seed depends on are dropped, and whatever a reached node depends on is kept with it |
| GraphPhases.AddRootGroups | graph/src/lib.rs:1003-1059 | Each root group is added exactly when it has a child |
| GraphPhases.Seeds | graph/src/lib.rs:921-936 | The seeds are the resources, data sources and root outputs |
| GroupPruning.PruneGroups | graph/src/lib.rs:976-1006 | The retain-until-stable loop keeps exactly the resources and the groups with a resource below |
| GroupPruning.SupportedHasResource | graph/src/lib.rs:1453-1476 | Where every group has a child, following children ends in a resource |
| GroupPruning.SurvivorIsParent | graph/src/lib.rs:980-999 | A group with a resource below is never removed, in no round |
| GroupPruning.ChildGroupIsDeeper | graph/src/lib.rs:245-274 | A child group is exactly one module deeper than its parent |
| PlanValues.SensitiveDoesNotInterfere | graph/src/lib.rs:279-351 | Values that agree except under true sensitive markers, by content or by presence, merge to the same result |
| PlanValues.ClearMarksAreFaithful | graph/src/lib.rs:279-351 | With no true marker and marker trees inside the value the merge returns the value |
| PlanValues.MergedMember | graph/src/lib.rs:291-324 | The merged object holds under every key the merge of the three members |
| PlanValues.MergedItem | graph/src/lib.rs:326-344 | The merged array is as long as the longest of the three and holds at every index the merge of the three items, null where that is nothing |
| PlanValues.MarkedIsFixed | graph/src/lib.rs:284-289 | A true sensitive marker, and else a true unknown one, replaces whatever is there by its fixed text |
| PlanValues.MergedLeaf | graph/src/lib.rs:346-350 | Where nothing is marked, an object or an array, the value stays |
| BlockScanner.ExtractBlock | graph/src/lib.rs:1895-1942 | The slice ends at the first position after the opening brace where unquoted depth returns to zero, every shorter prefix having depth at least one; None exactly when there is no such position |
| BlockScanner.Scan | graph/src/lib.rs:1912-1928 | One step of the scanner keeps its three variables equal to depth, quotedness and backslash parity |
| BlockScanner.DepthIsContinuous | graph/src/lib.rs:1930-1933 | Depth cannot skip zero, so the two outcomes exclude each other |
| BlockScanner.QuotedStretchKeepsDepth | graph/src/lib.rs:1916-1922 | Nothing inside a string changes the depth |
| BlockScanner.DepthIsCounted | graph/src/lib.rs:1916-1922 | The depth is one plus the opening braces outside strings less the closing ones |
| BlockScanner.DelimitersAreCounted | graph/src/lib.rs:1912-1914 | A position is inside a string exactly after an odd number of delimiters |
| BlockScanner.DelimiterIff | graph/src/lib.rs:1912-1928 | A quote delimits exactly after an even number of backslashes |
| DiffRecorder.ComputeChanges | defs/src/resource_change.rs:295-319 | None if a side is missing, else None if and only if the values are equal; otherwise the map that some order of the keys leads to; with nonempty dot-free keys it holds exactly the recorded paths with their changes |
| DiffRecorder.ChangeLog.Diff | defs/src/resource_change.rs:323-459 | For some order of the keys at every level, the map becomes the old one with the insertions of that order carried out |
| DiffRecorder.ChangeLog.DiffKeys | defs/src/resource_change.rs:346-414 | The same for the loop over the keys of two objects, each key listed once |
| PlanDiff.DiffIsRecorded | defs/src/resource_change.rs:339-458 | A path is recorded if and only if the two values differ there, are not both objects, and everything above is a pair of objects |
| PlanDiff.DiffContent | defs/src/resource_change.rs:361-456 | What a record holds: the two values at the path, null for absence, redacted where the marker at that path is true, and the unknown flag |
| PlanDiff.RecordIs | defs/src/resource_change.rs:332-456 | The record of a path by lookups alone: with both values present a true sensitive marker of either redacts both, a value that stands alone is redacted by its own marker beside null, all else is as it was, and the unknown flag needs a new value and a true marker |
| PlanDiff.RedactedDoesNotInterfere | defs/src/resource_change.rs:332-456 | Pairs of values that differ at the same paths and hold the same there, save what a true marker covers, have the same records |
| PlanDiff.RecordedIsAntichain | defs/src/resource_change.rs:347-459 | No recorded path extends another |
| PlanDiff.DifferenceIsRecorded | defs/src/resource_change.rs:339-458 | Any two different values have a recorded path |
| PlanDiff.RenderDecodes | defs/src/resource_change.rs:351-355 | Dotted paths of good keys decode to the keys they were made from |
| DiffRecorder.RecordedIsLogged | defs/src/resource_change.rs:339-458 | Every recorded path is inserted with its change, in any order of the keys |
| DiffRecorder.LoggedIsRecorded | defs/src/resource_change.rs:339-458 | Every insertion is that of a recorded path |
| DiffRecorder.OutcomeIsDiff | defs/src/resource_change.rs:347-459 | With good keys the map is the diff by lookups, in any order |
| PlanDiff.DiffIsUnique | defs/src/resource_change.rs:347-350 | Hence it does not depend on the order of the hash set |
| DiffRecorder.OrderIsImmaterialIffNoClash | defs/src/resource_change.rs:347-355 | All orders of the keys give one map if and only if no two recorded paths with the same path string hold different contents |
| DiffRecorder.LastInOrder | defs/src/resource_change.rs:347-350 | Any recorded path is the last insertion of some order, so its content stands there |
| DiffRecorder.GoodKeysDoNotClash | defs/src/resource_change.rs:351-355 | With nonempty dot-free keys no two recorded paths clash |
| DiffRecorder.DottedKeysCollide | defs/src/resource_change.rs:351-355 | A pair of values with a dotted key and two orders of its keys that give two different maps |
| DiffRecorder.EmptyIffEqual | defs/src/resource_change.rs:314-318 | In any order nothing is recorded exactly when the values are equal |
| PlanPatch.ApplyPatch | defs/src/resource_change.rs:295-459 | Applying the recorded new values to the old value, in any order, rebuilds the new value if and only if no member that differs is null in the new value |
| PlanPatch.NullIsLost | defs/src/resource_change.rs:373-391 | A member that becomes null has the record of a removal, and patching it in loses the member |
| PlanPatch.PatchClosesOne | defs/src/resource_change.rs:339-456 | One patch settles its own path and no other |
| PlanPatch.PatchElsewhere | defs/src/resource_change.rs:339-456 | A patch leaves every path apart from its own unchanged |
| PlanPatch.RemovalRemoves | defs/src/resource_change.rs:373-391 | A recorded null removes the member |
| PlanPatch.AllPending | defs/src/resource_change.rs:339-458 | The recorded path strings are exactly the paths at which the old value still differs |
| PlanSanitizer.MarkedDoesNotInterfere | defs/src/resource_change.rs:174-227 | Changing, adding or removing anything at key- or zip-aligned positions whose marker is true never changes the result |
| PlanSanitizer.ItemsDoNotInterfere | defs/src/resource_change.rs:207-218 | The same for arrays, whose marked items leave no gap |
| PlanSanitizer.ResultHasNothingEmpty | defs/src/resource_change.rs:201-218 | No empty object or array at any level the markers were followed to, array items judged by the marker they were zipped with |
| PlanSanitizer.ItemsAreKept | defs/src/resource_change.rs:207-212 | The items of a sanitised array are, in order, the results of exactly those positions that leave something behind under their own marker |
| PlanSanitizer.SanitizedArray | defs/src/resource_change.rs:207-219 | An array disappears exactly when no zipped position leaves something; otherwise its items are what those positions leave, in order |
| PlanSanitizer.SanitizedObject | defs/src/resource_change.rs:183-205 | An object disappears exactly when no member leaves something |
| PlanSanitizer.SanitizedScalar | defs/src/resource_change.rs:220-225 | A scalar comes through under false and under any object, a container only under a marker of its shape |
| PlanSanitizer.KeptWholeIffCleared | defs/src/resource_change.rs:178-227 | A value comes through unchanged if and only if its marker tree clears all of it |
| PlanSanitizer.UnchangedIff | defs/src/resource_change.rs:174-227 | The same with absent values and marker trees: without markers nothing comes through |
| PlanSanitizer.SanitizedAt | defs/src/resource_change.rs:182-227 | Looking into the result at any path of keys finds what the value holds there, sanitised by the marker met there, whole where the markers end, and nothing where a marker cuts the path off |
| PlanSanitizer.ScalarSurvivesIff | defs/src/resource_change.rs:182-227 | A scalar below objects survives if and only if no marker cuts it off and its own, if it has one, is false or an object |
| PlanSanitizer.SparedScalarSurvives | defs/src/resource_change.rs:174-227 | Along any path of keys and indices, a scalar that no marker on its way cuts off and whose own clears it is in the result, items moved up by those dropped before them |
| PlanSanitizer.ScalarsAreSpared | defs/src/resource_change.rs:174-227 | And every scalar of the result is one of these |
| GitOps.ExtractManifestChanges | gitops/src/gitops.rs:6-51 | One change per readable document of the file, in order |
| GitOps.CollectChanges | gitops/src/gitops.rs:54-67 | The loops over files and documents fill the map in file order, later changes of a key replacing earlier ones |
| GitOps.LastInsertedStands | gitops/src/gitops.rs:56-58 | A change stands in the map unless a later one has its key |
| GitOps.ChangesAreCollected | gitops/src/gitops.rs:54-67 | The map has every key found in the files, each with a change found in one of them |
| GitOps.GroupFilesByManifest | gitops/src/gitops.rs:53-158 | In any order exactly one group per key that needs one: apply for new or changed content, destroy for a key only deleted, rename for identical content and bytes under another path, none for identical content otherwise |
| GitOps.GroupsAre | gitops/src/gitops.rs:69-157 | Over the changes of both sides: a rename group, with the new file, exactly for equal content and bytes under different paths; an apply group, with the new file and content, exactly for keys the old side lacks or has with other content; a destroy group, with the old file and content, exactly for keys of the old side alone; no others |
| GitOps.LaterFileWins | gitops/src/gitops.rs:54-67 | The last change of a key in a file replaces those of earlier files |
| GitOps.OtherFilesStand | gitops/src/gitops.rs:54-67 | A file without the key leaves its change alone |
| GitOps.DocumentsOfPieces | gitops/src/gitops.rs:9-43 | The documents of a text are those of its pieces one by one, in order |
| GitOps.GroupActive | gitops/src/gitops.rs:71-143 | The group of one active key, without the region branch |
| GitOps.RegionsAgree | gitops/src/gitops.rs:97-125 | Both sides of a key carry the key's region, so the region branch is unreachable |
| GitConvergence.ConvergesIffSuffices | gitops/src/gitops.rs:53-158 | For any truthful report of two snapshots in which every key occurs once: replaying the groups gives the new manifests if and only if every new or changed manifest is mentioned on the new side, every dropped one on the old side, and none that stays on the old side alone |
| GitConvergence.CoveringSuffices | gitops/src/gitops.rs:53-158 | A report that covers the difference of the snapshots mentions enough |
| GitConvergence.GroupsConverge | gitops/src/gitops.rs:53-158 | If the report covers the difference, replaying the groups on the old manifests gives exactly the new ones |
| GitConvergence.ReplayAt | gitops/src/gitops.rs:69-157 | Each key sees its own group only, whatever the order of the groups |
| GitConvergence.ConvergesAt | gitops/src/gitops.rs:71-155 | One manifest ends up right if and only if it is mentioned where it has to be |
| GitConvergence.KeptManifest | gitops/src/gitops.rs:54-67 | A manifest no active change mentions is unchanged and is not destroyed |
| GitConvergence.UnmentionedStays | gitops/src/gitops.rs:69-157 | A manifest that no reported file mentions keeps its state |
| GitDivergence.RenameWithEdits | gitops/src/diff.rs:64-67 | A run of `get_diff` and the grouping on an edited file with a rename status, after which a manifest the new snapshot does not declare is still deployed |
| GitDivergence.RemovedAndAdded | gitops/src/github.rs:409-429 | A run of the webhook and the grouping on a file removed and added again in one push, after which a manifest the new snapshot does not declare is still deployed |
| GitFrontEnds.GetDiff | gitops/src/diff.rs:6-77 | The reported files of both sides, in the order of the lines, for any lines, prefixes and contents |
| GitFrontEnds.ReportedIs | gitops/src/diff.rs:29-69 | A file is reported on a side exactly when a selected line contributes it there |
| GitFrontEnds.DiffFilesAre | gitops/src/diff.rs:29-69 | The reported files of both sides by status, selection and content |
| GitFrontEnds.SelectedAre | gitops/src/github.rs:317-344 | A path is looked at exactly if it ends in `.yaml` or `.yml` and is under a configured prefix, if any |
| GitFrontEnds.DiffCovers | gitops/src/diff.rs:23-76 | If the lines are the differing YAML paths with their status, the report covers the difference under the prefixes |
| GitFrontEnds.ReconcileDiff | gitops/src/diff.rs:6-77 | Grouping what `get_diff` reports converges for the change list of the snapshots, restricted to the prefixes, and for any other lines exactly when they mention enough |
| GitFrontEnds.DiffConvergesIff | gitops/src/diff.rs:29-69 | For any lines: convergence if and only if lines with status A or M, and D or M, mention the manifests that need it; other statuses mention nothing |
| GitFrontEnds.CollectPaths | gitops/src/github.rs:366-383 | The three path sets are the unions over all commits |
| GitFrontEnds.ProcessWebhookFiles | gitops/src/github.rs:346-435 | Modified files are reported on both sides with absent text as empty, added ones on the new side, removed ones on the old; an error exactly when a fetch that a selected file needs fails |
| GitFrontEnds.WebhookFilesAre | gitops/src/github.rs:390-430 | The reported files of both sides by the sets a path is in, absent modified files as empty |
| GitFrontEnds.NeededFetchesAre | gitops/src/github.rs:395-422 | Which fetches can fail the call |
| GitFrontEnds.WebhookCovers | gitops/src/github.rs:390-434 | If every differing file is listed, files only added were absent before and files only removed are absent after, the report covers the difference |
| GitFrontEnds.WebhookConvergesIff | gitops/src/github.rs:390-434 | For any listed sets: convergence if and only if modified or added files, and modified or removed but not added ones, mention the manifests that need it |
| GitFrontEnds.ReconcileWebhook | gitops/src/github.rs:346-435 | Grouping what the webhook reports converges for any overlap of the sets if they list the changes, and otherwise exactly when they mention enough |
| Credentials.RunKeepsInv | env_aws_direct/src/central_creds.rs:154-237 | The invariant of lock, tasks, cache and history holds after every interleaving |
| Credentials.StepKeepsInv | env_aws_direct/src/central_creds.rs:154-237 | Every step of every task keeps it |
| Credentials.RunIsSafe | env_aws_direct/src/central_creds.rs:228-236 | The write lock excludes readers and writers, every entry was minted for its own key, every result for its own account and in the region asked for |
| Credentials.SingleFlight | env_aws_direct/src/central_creds.rs:158-170 | After a successful call, while its entry stands, another call is made only by a task whose captured time plus the skew has reached the expiry |
| Credentials.CallsDoNotOverlap | env_aws_direct/src/central_creds.rs:165-206 | The answer of a call is the very next event, so no two calls overlap |
| Credentials.ServedIsFresh | env_aws_direct/src/central_creds.rs:159-170 | A cached entry is handed out only while it outlives the task's captured time by more than the skew |
| CredentialRuns.EventOfStep | env_aws_direct/src/central_creds.rs:158-236 | What each kind of logged event comes from and goes with: the expiry and region of a mint are those of the success, a served entry outlives the captured time by more than 300 seconds and is handed out in the region asked for or its own, a call needs a configured role and no such entry |
| CredentialRuns.SuccessIsMinted | env_aws_direct/src/central_creds.rs:206-236 | Every success of a call in flight is cached with its expiry, logged, handed to its task, and releases the lock |
| CredentialRuns.CachedBySuccess | env_aws_direct/src/central_creds.rs:228-234 | In every run, each cached expiry is that of a success step for the same key |
| CredentialRuns.ServedOutlives | env_aws_direct/src/central_creds.rs:158-170 | In every run, whoever is served started at a time that the expiry of a success for the same key outlives by more than 300 seconds |
| CredentialRuns.SingleFlightOfSteps | env_aws_direct/src/central_creds.rs:158-170 | Single flight with the expiry of the success step and the time of the start step |
| CredentialRuns.TaskHasStart | env_aws_direct/src/central_creds.rs:154-158 | In every run, a task's key, region and time are those of its start step |
| CredentialRuns.AloneServed | env_aws_direct/src/central_creds.rs:158-163 | A task that runs alone with a fresh entry is served under the read lock and changes nothing else |
| CredentialRuns.AloneEnds | env_aws_direct/src/central_creds.rs:165-236 | Without one it takes the write lock, calls, and ends with the minted configuration cached and handed out, or with nothing changed |
| CredentialRuns.AloneUnconfigured | env_aws_direct/src/central_creds.rs:179-179 | Without a configured role it fails without a call and releases the lock |
| Credentials.StandingSince | env_aws_direct/src/central_creds.rs:228-234 | What stands for a key is the last entry minted for it |
| Credentials.LogKeepsOrder | env_aws_direct/src/central_creds.rs:239-342 | Each step appends at most one event, in order, and only a mint changes what stands; publish scopes follow the same steps |
| Agent.AgentRun.Run | infraweave-chat/src/agent.rs:51-68 | For every model and tool behaviour the events are the transcript of the replies, an error if the last call failed, and then Done |
| Agent.AgentRun.RunInner | infraweave-chat/src/agent.rs:70-168 | At most ten model calls, each with the dialogue so far, each but the last answered by a tool request |
| Agent.AgentRun.TakeTurn | infraweave-chat/src/agent.rs:99-165 | What one reply adds to messages and events |
| Agent.AgentRun.CallTools | infraweave-chat/src/agent.rs:117-151 | One call and one answer event and one result block per tool use, in order, unknown and failing tools included |
| Agent.EventsAreWellFormed | infraweave-chat/src/agent.rs:51-168 | Every call event is directly followed by its result, Truncated occurs exactly when all ten replies asked for tools, Done occurs exactly once and last |
| Agent.DialogueAlternates | infraweave-chat/src/agent.rs:107-157 | Each tool request is followed by one user message that answers it |
| Agent.ResultsAnswerUses | infraweave-chat/src/agent.rs:117-151 | The result ids are the tool-use ids of the turn, in order |
| Agent.UsesAreAnswered | infraweave-chat/src/agent.rs:117-151 | Every tool use, in order: the call event has its input; result and answer event carry the output, or the text for a failed execution or an unknown tool with the error flag; the browser sees 400 characters of it |
| Agent.TextsAreSent | infraweave-chat/src/agent.rs:99-105 | The nonempty texts of a reply are sent in order |
| Agent.TurnIsSent | infraweave-chat/src/agent.rs:99-165 | A turn sends its texts, then calls and answers, then the truncation if it is the tenth to ask |
| Agent.FailuresAreSent | infraweave-chat/src/agent.rs:58-66 | An error is sent exactly for the failure of the last call |
| Agent.AskedOnceMore | infraweave-chat/src/agent.rs:96-115 | One more model call extends transcript and dialogue by its turn |
| Poller.JobReporter.ReportJob | cli/src/plan.rs:112-183 | Records, errors and output stay the functions of the observed history, and the result says whether this observation fails |
| Poller.RecordOnlyAdvances | cli/src/plan.rs:134-181 | A record moves from absent over non-final to final, and a final one sticks |
| Poller.RecordIsSeen | cli/src/plan.rs:134-181 | A job has a record exactly when seen and a final one exactly when seen final |
| Poller.ObservationIs | cli/src/plan.rs:126-171 | What an observation counts as: its deployment status, and without one running if in progress and failed if not |
| Poller.RecordIsFirstFinal | cli/src/plan.rs:134-181 | A record is the first final status seen |
| Poller.RecordIsFirstSeen | cli/src/plan.rs:134-140 | As long as there is none, it is the first status seen |
| Poller.OutcomesArePrintedRight | cli/src/plan.rs:173-179 | An outcome is printed exactly for a final record, as a failure unless successful |
| Poller.RunningIsAnnounced | cli/src/plan.rs:134-140 | A job is announced as running exactly when first seen before its end |
| Poller.ShownIff | cli/src/plan.rs:112-118 | Quiet runs show failures only, others everything in order |
| Poller.ErrorsAreDistinctAndSeen | cli/src/plan.rs:155-164 | Failure reasons are exactly the distinct nonempty errors seen |
| Poller.AnnouncedOnce | cli/src/plan.rs:135-181 | Running is announced at most once and the outcome exactly once per job seen final |
| Poller.PollRound | cli/src/plan.rs:196-217 | The flags and the status map of one round, and what the reporter was told |
| Poller.StatusesOfRound | cli/src/plan.rs:214-216 | A job found in the round holds the deployment found last, other entries persist, no other key appears |
| Poller.PollUntilDone | cli/src/plan.rs:185-246 | Polling goes on exactly while some job is in progress and ends with that round's verdict or a failed fetch |
| Poller.SuccessMeansAllRecorded | cli/src/plan.rs:219-242 | A successful end means that in the last round no job was in progress, each had a record that was successful or non-final, and the returned map holds it under its job id |
| Poller.SuccessMeansAllSuccessful | env_common/src/logic/api_infra.rs:738-741 | If a busy record is always reported as in progress, a successful end means that every job is successful in the returned map |
| Poller.VerdictCoversAllRoundsIff | cli/src/plan.rs:195-242 | The verdict says whether anything in the whole history failed if and only if some job fails in the last round or none failed before it |
| Poller.LastingFailuresAreReported | cli/src/plan.rs:195-242 | If a job that failed keeps failing, polling ends well exactly when nothing ever failed |
| Poller.FailureIsForgotten | cli/src/plan.rs:195-197 | A run on a receivable trace that prints, records and collects a failure and ends well |
| AttributeCodec.DecodeEncode | env_aws_direct/src/direct_impl.rs:47-108 | Decoding an encoded value gives it back, for every nested value whose numbers are 64-bit integers |
| AttributeCodec.EncodeStandsFor | env_aws_direct/src/direct_impl.rs:47-73 | The encoded attribute has the shape and the scalars of the value: null as null, numbers in canonical decimal |
| AttributeCodec.OthersDecode | env_aws_direct/src/direct_impl.rs:75-108 | Sets read as arrays of their texts, numbers as integers, else floats, else text, everything else as null |
| AttributeCodec.EncodeIsInjective | env_aws_direct/src/direct_impl.rs:47-73 | No two such values share an encoding |
| AttributeCodec.JsonToAttribute | env_aws_direct/src/direct_impl.rs:47-73 | The recursive conversion with its loop over members computes the encoding in any order |
| AttributeCodec.AttributeToJson | env_aws_direct/src/direct_impl.rs:75-108 | The conversion back computes the decoding in any order |
| AttributeCodec.RoundTripItem | env_aws_direct/src/direct_impl.rs:626-637 | An object written as an item reads back as itself; anything else is refused with the error |
| Decimal.PrintParses | env_aws_direct/src/direct_impl.rs:51-80 | Parsing a printed 64-bit integer gives the integer |
| Decimal.PrintIsCanonical | env_aws_direct/src/direct_impl.rs:51-52 | Printed integers have no superfluous sign or zero |
| Decimal.SignsAre | env_aws_direct/src/direct_impl.rs:78-80 | A plus is read as nothing, a minus as the sign, and what exceeds 64 bits is refused |
| Decimal.DigitsParse | env_aws_direct/src/direct_impl.rs:51-80 | The same for a run of digits of any length |

## Left out

- Cloud SDK calls, HTTP clients, signing, telemetry, the CLI, rendering and pretty printers: calls with no visible semantics, or text.
- YAML, DOT, HCL and regular-expression parsing: the model starts at trimmed documents, raw nodes and edges, and the match position. A document reader is any function whose keys carry the region of the content and that finds nothing in an empty text.
- Walking the configuration and qualifying its references (`graph/src/lib.rs:1206-1283`): the model starts at the pairs of addresses the augmentation pushes, any pairs. Edge attribute labels (`graph/src/lib.rs:1337-1394`) are carried along and left out.
- Action, count, values, code, label, position and style of nodes: carried along and never branched on by the graph algorithms.
- ProcessGraph: configured dependencies are an input and edge attributes are not modelled (see above); the claims about nodes assume that no address is called `root_variables` or `root_outputs`, since such a node would share its id with a root group.
- Resolve: for a node from which a cycle of contracted nodes is reached only termination, soundness, order and stack are claimed, and what one call returns as a function of cache and stack.
- ExtractBlock: positions are characters, not bytes of UTF-8.
- ComputeChanges: JSON numbers are integers. A value nested inside a whole-value record is redacted only if the marker at the recorded path is true; no more is claimed.
- `compute_dependency_change` and `sanitize_resource_changes_from_plan`: set differences and field copies.
- DecodeEncode: floats and integers beyond 64 bits are not claimed; their printing and parsing is an arbitrary pair of functions.
- PollUntilDone: polling is watched for any finite number of rounds; the source may go on for ever. Short job ids, colours and the closing summary are not modelled.
- SingleFlight: role arns, session names and tags are not modelled, nor is the tag `-` that a publish scope without track shares with one whose track is a dash; failures before the call count as refusals.
- ReconcileWebhook: which two commits are compared is chosen by GitHub calls and is an input; prefixes come trimmed, for `get_diff` also split at commas.
- `find_hcl_block`, `get_module_dir`: they read the file system.
