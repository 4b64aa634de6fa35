# Upgrade graphs of the operator registry, in Dafny

The registry answers one question for the operator lifecycle manager: which bundle of an operator replaces or
skips which other bundle, in which channel. This project models the code that decides this, stores it as database
rows and reads it back, and proves what that code promises about it. It is written for
Dafny 4.11; `dafny verify dfyconfig.toml` checks the whole project.

## What is modelled

The database is a value of type `Db` (`Tables.dfy`): one map per table (`operatorbundle`, `channel`, `package`,
`channel_entry`) and the set of deprecated names. SQL statements are functions on it, with the foreign keys and
cascades of `pkg/sqlite/migrations/004_cascade_delete.go`; the deferred constraint on `channel_entry.replaces` is
checked when a transaction commits. A transaction works on a copy, and committing assigns the copy to the field `db`
of the class `Loader` (`SqlLoader.dfy`); without a commit nothing changes. Loops of the source over Go maps or
over query results without an order pick any remaining element, so every result below holds for every order.

| files | part of the registry |
|---|---|
| `Semver`, `HeadCandidates`, `HeadContests`, `SemverManifest` | version order with build ids; channel heads and default channel by version |
| `Tables`, `ChannelRows`, `EntryWriter`, `ReplacesLoader` | the tables and the replaces-mode writer |
| `ListQuery`, `ReadBack`, `IndexRuns` | the recursive list query and what it says over runs |
| `Model`, `Conversion`, `HeadAgreement`, `HeadExamples` | the in-memory model, the way there, and the heads found in it |
| `Registry`, `Graph`, `GraphInsert`, `GraphWalk`, `GraphStore`, `GraphLoad` | the semver-mode graph: insert, flatten, reload |
| `RoundTrip`, `SemverRuns`, `SemverSteps`, `SemverOrder` | what storing and reloading a graph gives; runs of semver mode and their order |
| `Reachability`, `Tail`, `Deprecation`, `Removal` | deprecation, removal of packages and of stranded bundles |
| `SubstitutionChains`, `Substitutes` | substitution chains |
| `Soundness`, `Upkeep`, `Runs`, `SqlLoader` | the invariant of the index, kept by every operation and over runs |
| `Properties`, `DeclConfig`, `ModelToConfig`, `ConfigRoundTrip`, `ConfigExamples` | declarative configs and their conversions |
| `DirectoryGraph` | the worklist of the directory loader |

## Main results

- **The index agrees with the declarations.** After any run of bundle additions and package loads the list query gives
  each bundle of a walked chain exactly its declared replaces and skips (skips as a multiset) and every other bundle
  neither (`ReadBack.RunAgreesWithDeclaration`). A deprecation takes exactly the tail out of this, in every channel that
  survives (`IndexRuns.DeprecationReads`). After any run of additions, loads, deprecations and removals the query gives
  the bundles that follow each other from the head what they declare, restricted to the bundles that still have an entry
  in the channel, and all others nothing (`IndexRuns.RunReads`).
- **Every run keeps the index sound.** Each channel's recorded head is the bundle of its unique entry of least depth,
  pointers stay in their channel and lead deeper or to an entry without a pointer (`Runs.RunIsSound`). Storing a graph keeps
  this if and only if no channel keeps its row while its new head has no bundle row (`Upkeep.StoreKeepsSound`);
  `Upkeep.MissingHeadUnsound` is an input where it is lost, and graphs generated from the index never are such inputs
  (`Upkeep.GeneratedHeadsFit`). The pointers stay sound and never come back whatever is stored (`Runs.RunPointersEnd`).
- **When semver mode does not depend on the order of additions.** A list of bundles can be added in every order if and only
  if each could be added alone and no two keep each other out (`SemverOrder.AnyOrderIff`), and then every order succeeds and
  ends with the same channel graphs: all added versions in one sorted chain per channel
  (`SemverOrder.AnyOrderSameGraphs`). Without that condition the order matters: a bundle may name a default channel that
  only another bundle brings, so it has to come second (`SemverOrder.OrderMatters`). The recorded default channel
  is not part of the statement: the last bundle to name one decides it.
- **A stored graph reads back** if and only if the replaced keys that are no nodes have no bundle row
  (`RoundTrip.StoreThenGenerate`); skippatch violates this (`RoundTrip.SkippedPatchComesBack`).
- **A manifest by version exists** exactly under a condition on the list of bundles (`SemverManifest.SemverPackageManifest`).
  The count of a bundle leaks from one channel to the next, so a list whose channels all have a strictly newest bundle may
  have none (`SemverManifest.CountLeaks`).
- **Deprecation has an exact effect** (`Deprecation.DeprecateBundle`), and without the graph writer no run leaves a channel with
  a deprecated head (`Runs.RunHeadsNotDeprecated`).
- **Substitution chains stay sorted**, nothing is substituted for twice, and every bundle skips all that lie below it; what
  the added bundle and the bundles over it skip afterwards is stated exactly (`Substitutes.AddSubstitutesFor`,
  `Substitutes.SitsByVersion`).
- **The two notions of a head agree** for every order of the query rows if and only if the head is neither skipped by its
  chain nor in a same-named channel of another package, and every other bundle of the channel is the target of a chain
  bundle that is held whenever it is (`HeadAgreement.TwoHeadsAgree`). `HeadExamples.SharedHead` and `HeadExamples.SkippedHead`
  are reachable indexes where they do not.
- **A declarative config survives the trip through the model** (`ConfigRoundTrip.ThroughModel`).

Where code and documentation disagree the model follows the code. The tip of the list query is the least depth of the
whole table, not of each channel, which is why the agreement is stated for indexes written by one writer. The
default-channel query of the deprecation joins on the channel name only, so the default channel of another package counts
too. `AddPackageChannelsFromGraph` commits what it could write even when it returns errors; its checks are
stated as reports.

## Model

| member | source | states |
|---|---|---|
| Semver.BuildAsPrerelease | pkg/lib/semver/semver.go:29-54 | the build ids, if there are any, become the prerelease of version 1.0.0; an error exactly if one of them is not a valid identifier |
| Semver.CompareBuildIds | pkg/lib/semver/semver.go:11-27 | precedence first, then build ids compared as prereleases; an error exactly on equal precedence with an unconvertible build id |
| Common.CompareStringsIff | pkg/lib/semver/semver.go:12-14 | a string comes before another exactly if it is a proper prefix of it or has the smaller character where the two first differ |
| Semver.PrecedenceIff | pkg/lib/semver/semver.go:12-14 | a version precedes another exactly by its first smaller number, or, with equal numbers, by a prerelease against none or by the first differing prerelease identifier, numbers below text, a proper prefix first |
| Semver.NewerIff | pkg/lib/semver/semver.go:11-27 | a version is newer exactly if the other precedes it, or if neither precedes the other, all build ids are valid identifiers and its build ids come later by the same rule, none coming first |
| Semver.CompareFlip | pkg/lib/semver/semver.go:12-14 | section 11 precedence of Semantic Versioning 2.0.0 is antisymmetric |
| Semver.CompareTransitive | pkg/lib/semver/semver.go:12-14 | section 11 precedence is transitive, strictly so if either step is strict |
| Semver.ParseIdentifierIff | pkg/lib/semver/semver.go:33-49 | a build id is a valid identifier exactly if it is nonempty and made of letters, digits and hyphens and, if all are digits, has no leading zero and fits 64 bits |
| Semver.ParseIdentifierInjective | pkg/lib/semver/semver.go:33-49 | different build ids parse to different prerelease identifiers |
| Semver.BuildIdOrder | pkg/lib/semver/semver.go:11-27 | when the comparison fails, that swapping negates it, that it is zero only for versions equal in all components, that it refines precedence and puts no build below a build |
| Semver.NewerTransitive | pkg/lib/semver/semver.go:11-27 | the order by build ids is transitive |
| Semver.BuildIdTotal | pkg/lib/semver/semver.go:11-27 | versions with convertible build ids are newer, older or equal, exclusively |
| SemverManifest.EnterChannels | pkg/registry/populator.go:327-345 | fails exactly if the bundle's version cannot be compared with the newest one met so far in one of its channels; otherwise every channel's candidate is the last newest bundle met in it, counted more than once exactly if it tied in that channel or in one it lists before |
| SemverManifest.CollectHeads | pkg/registry/populator.go:373-386 | every channel is listed once with its candidate, exactly if all candidates were counted once |
| SemverManifest.SemverPackageManifest | pkg/registry/populator.go:292-393 | a produced manifest is of the last bundle's package and lists exactly the bundles' channels, each with a head strictly newer than every other bundle in it; the default channel is listed, and is the one named by the last bundle to name one among those at least 0.0.0 and no older than all before them; a manifest is produced exactly if every bundle is of the package of the one before it unless that is empty, all versions parse and compare where they must, no final head tied in its channel or one it lists before, the highest bundle ties nowhere, and the default is a listed channel or there is just one |
| SemverManifest.CountLeaks | pkg/registry/populator.go:336-344 | 1.0.0 in a, 1.0.0 in a and b, 2.0.0 in a: both channels have a strictly newest bundle and no manifest is produced |
| SemverManifest.TieLeaks | pkg/registry/populator.go:336-344 | any list of this form counts the second bundle as contested in the channel it has for itself |
| HeadCandidates.ComparesBy | pkg/registry/populator.go:306-318 | bundles are compared by their own version, those without one by 0.0.0-z, those with a malformed one not at all |
| HeadCandidates.UnversionedOrder | pkg/registry/populator.go:310-314 | 0.0.0-z precedes a version exactly if that is a release, has a nonzero number or has a prerelease after the letter z |
| HeadContests.ChallengeExact | pkg/registry/populator.go:334-344 | comparing a bundle with a channel's head fails, ties or decides as the bundles met so far say, and keeps the counts exact |
| HeadContests.MaxRises | pkg/registry/populator.go:347-358 | a bundle at least 0.0.0 and no older than all before it becomes the highest one, counted more than once exactly if it ties in a channel or with an earlier bundle |
| SemverManifest.HeadsOrderIndependent | pkg/registry/populator.go:292-393 | two manifests produced from the same bundles in different orders have the same heads |
| Tables.RmPackageEffect | pkg/sqlite/load.go:1057-1090 | deleting package, channel and entry rows of a package takes exactly its own rows |
| Tables.NextId | pkg/sqlite/loadprocs.go:9-26 | a new entry gets the id after the largest one in use |
| ChannelRows.StoredLayered | pkg/sqlite/load.go:606-724 | every row written for a chain carries its channel, only the head's row has the least depth, and pointers stay among the rows and lead deeper or to a row without a pointer |
| EntryWriter.AddChannelEntry | pkg/sqlite/loadprocs.go:9-26 | exactly one row is added, under a fresh id, without a pointer |
| EntryWriter.BuildingNext | pkg/sqlite/loadprocs.go:28-41 | pointing the last real row of a channel under construction at a new row makes the rows those of a chain with one more link |
| EntryWriter.AddSkipEntries | pkg/sqlite/load.go:643-676 | each skipped bundle gets a dummy row and an extra row of the skipping bundle pointing at it, at rising depths |
| ReplacesLoader.ChainFacts | pkg/sqlite/load.go:621-723 | a successful walk repeats no bundle, every replaces it followed names an existing bundle, and only its last bundle can be deprecated |
| ReplacesLoader.WriteLink | pkg/sqlite/load.go:624-722 | a bundle of the walk adds the rows of its skips and a row for the bundle it replaces, at the right depth and with the pointer from its own row |
| ReplacesLoader.WriteChannel | pkg/sqlite/load.go:606-724 | for any table contents the walk ends; it succeeds exactly if the declared chain has neither a cycle nor a missing bundle, and then the channel's rows are exactly those of the chain |
| ReplacesLoader.KeptMembers | pkg/sqlite/load.go:584-588 | the channels kept are exactly those whose head is not deprecated |
| ReplacesLoader.AddChannelRows | pkg/sqlite/load.go:575-604 | the channel and package rows of the kept channels are written, exactly if their names are distinct, their heads exist and one is the default |
| ReplacesLoader.WriteChannels | pkg/sqlite/load.go:606-725 | all kept channels get the rows of their chains and no other row changes, exactly if every chain can be walked |
| ReplacesLoader.DefaultIsDeclared | pkg/registry/types.go:118-121 | the recorded default is the only listed channel's name, or else the name the manifest declares, and there is one exactly if a channel of that name is kept |
| ReplacesLoader.LoadableIff | pkg/sqlite/load.go:575-725 | a manifest can be loaded exactly if its kept channels have different names, one of them is the declared default and the chain of each head can be walked |
| ReplacesLoader.LoadedTables | pkg/sqlite/load.go:575-604 | after a load the package has exactly the channels whose declared head is not deprecated, each with that head, and every channel of another package is as before |
| ReplacesLoader.LoadPackage | pkg/sqlite/load.go:515-726 | a load succeeds exactly on a loadable manifest and then rewrites the package's rows and no others; the recorded default is the declared one, or the only listed channel |
| ListQuery.FollowLeast | pkg/sqlite/query.go:941-950 | the recursive select computes the least set of entries that holds the tip and follows pointers |
| ListQuery.ReplacesEntryIsReal | pkg/sqlite/query.go:937-950 | in an index written by one loader the recursive select reaches exactly the real entries |
| ListQuery.ReplacesOfLink | pkg/sqlite/query.go:950-958 | the query gives each link of a chain the next link as its replaces, the last one none, and none where the next bundle's rows were taken out |
| ListQuery.SkipsOfLink | pkg/sqlite/query.go:958-973 | the query gives each link of a chain exactly its skips, as a multiset, without those whose rows were taken out |
| ListQuery.NothingElse | pkg/sqlite/query.go:950-973 | a name that is no link of the chain gets neither replaces nor skips |
| ReadBack.IndexAgreesWithDeclaration | pkg/sqlite/query.go:936-999 | when every channel was written by a replaces-mode load, each bundle of a walked chain gets exactly its declared replaces and skips and every other bundle neither |
| ReadBack.LoadKeepsWritten | pkg/sqlite/load.go:515-533 | a load leaves every channel written from the current bundle rows |
| ReadBack.AddBundleKeepsWritten | pkg/sqlite/load.go:56-70 | adding a bundle row leaves every channel written from the current bundle rows |
| ReadBack.RunAgreesWithDeclaration | pkg/sqlite/load.go:515-726 | the agreement holds after every run of AddOperatorBundle and AddPackageChannels from the empty database |
| IndexRuns.CutTraces | pkg/sqlite/load.go:1416-1466 | a deprecation takes the rows of the tail out of a surviving channel, clears the pointers to them, and leaves everything else of the chain |
| IndexRuns.DeprecationReads | pkg/sqlite/load.go:1416-1466 | after a deprecation the query gives each bundle of a surviving channel's chain its declared replaces and skips without the tail, and all others, the tail included, neither |
| IndexRuns.RemovalLeaves | pkg/sqlite/load.go:927-973 | a channel that survives the removal of a package keeps all its rows and the rows of its bundles |
| IndexRuns.TracedReads | pkg/sqlite/query.go:936-999 | starting at the head, the bundles that replace each other get what they declare, restricted to bundles with an entry in the channel, and all others get nothing |
| IndexRuns.RunReads | pkg/sqlite/load.go:515-533 | this holds after every run of additions, loads, deprecations, package removals and removals of stranded bundles |
| Model.CountIncoming | internal/model/model.go:139-148 | the counted names are exactly those some bundle of the channel replaces or skips |
| Model.Head | internal/model/model.go:139-166 | the head is the only bundle nothing in the channel replaces or skips; an error exactly if there is none or more than one |
| Model.Validate | internal/model/model.go:168-201 | a channel validates exactly if it has a name, bundles, a head, and bundles filed under their names that are valid themselves |
| Model.ValidatedIff | internal/model/model.go:168-201 | a channel is valid exactly if it has a name and a single head, no bundle or skip has an empty name, bundles are filed under their names and their own fields are valid |
| Model.HeadSpansChannel | internal/model/model.go:139-201 | in a valid channel without cycles every other bundle is reachable from the head |
| Conversion.ListBundles | pkg/sqlite/query.go:1001-1114 | of the query rows with the same name, version, path and channel name exactly the first is kept |
| Conversion.EmptyChannelsFacts | pkg/sqlite/conversion.go:41-72 | the model has exactly the channels whose package has a row, at first without bundles |
| Conversion.PopulateChannels | pkg/sqlite/conversion.go:74-99 | every package and channel gets exactly the listed bundles filed under it, with the queried replaces, skips and path |
| HeadAgreement.BundleEdges | pkg/sqlite/conversion.go:74-99 | a bundle of a model channel has exactly the edges it declares if it is on the walked chain, and none otherwise |
| HeadAgreement.UnsharedIsHeld | pkg/sqlite/conversion.go:74-99 | a model channel holds every bundle with a row and an entry in the channel that is in no same-named channel of another package |
| HeadAgreement.ListedOnce | pkg/sqlite/query.go:1035-1037 | of two same-named channels only one holds a bundle that both have |
| HeadAgreement.TwoHeadsAgree | pkg/sqlite/conversion.go:74-99 | for every order of the query rows the model channel's only source is the stored head, if and only if no chain bundle skips the head, the head is in no same-named channel of another package, and every other bundle of the channel is the target of a chain bundle that is unshared or is that bundle itself |
| HeadAgreement.UnsharedHeads | pkg/sqlite/conversion.go:74-99 | with no bundle shared with a same-named channel the sources are exactly the stored head if no chain bundle skips it, and none otherwise |
| HeadExamples.SharedHead | pkg/sqlite/query.go:1035-1037 | packages p and q, each with a channel "stable" headed by the same bundle: reachable by loads, and either channel may lose its head |
| HeadExamples.SkippedHead | internal/model/model.go:139-166 | a replaces b and b skips a: reachable by a load, and the model's channel has no head |
| Registry.SelectsLeast | pkg/registry/types.go:365-374 | the default channel chosen when none is named is one of the bundle's channels, the first in lexicographic order |
| Graph.InsertNode | pkg/registry/bundlegraphloader.go:76-149 | fails exactly on a node with the same version or an unparsable one; otherwise, for any order of the scan, the node becomes the head if no version is above it, the lowest version above it replaces just it, and it replaces the greatest version below it and, with skippatch, all lower patches of its minor version, which are no nodes any more |
| Graph.SortedChainUnique | pkg/registry/bundlegraphloader.go:52-150 | a set of versions has one sorted chain |
| Graph.InsertKeepsSorted | pkg/registry/bundlegraphloader.go:76-149 | inserting a new version into the sorted chain of a set gives the sorted chain of the larger set |
| Graph.SkipPatchNodes | pkg/registry/bundlegraphloader.go:83-149 | skippatch removes exactly the nodes with equal major and minor and a lower version, and the new node replaces all of them and otherwise only the greatest lower version |
| Graph.SkipPatchOrdered | pkg/registry/bundlegraphloader.go:158-160 | skippatch keeps versions distinct, the head greatest and every edge leading to a strictly lower version |
| GraphInsert.AddToChannels | pkg/registry/bundlegraphloader.go:52-150 | the key is inserted in exactly the bundle's channels, others stay; fails exactly on a repeated channel or a conflicting version |
| GraphInsert.AddBundleToGraph | pkg/registry/bundlegraphloader.go:16-153 | adds the bundle to its channels and sets the default channel, exactly if it has a version, a default channel can be determined and no channel conflicts |
| GraphWalk.VersionsDescend | pkg/sqlite/load.go:434-505 | edges to strictly lower versions only make a channel one the walk ends on |
| GraphWalk.WalkDistinct | pkg/sqlite/load.go:434-505 | a walk visits no node twice and takes at most as many steps as there are nodes, whatever next node is chosen |
| GraphWalk.LengthCheck | pkg/sqlite/load.go:492-498 | the length check fails exactly if some node is off the walked path |
| GraphWalk.SplitReplaces | pkg/sqlite/load.go:452-468 | replaced keys that are no nodes are listed once each, and the next node is any replaced node |
| GraphWalk.WriteGraphChannel | pkg/sqlite/load.go:421-506 | the channel's new rows are exactly those of a walk from the head, and the graph is reported exactly if the walk is not as long as the nodes are many |
| GraphStore.UpsertChannels | pkg/sqlite/load.go:405-414 | each channel whose head is a bundle row gets that head, the others keep what they had and are reported |
| GraphStore.RewriteChannel | pkg/sqlite/load.go:421-506 | only the channel's rows change; with a channel row they become those of a walk, without one they are gone |
| GraphStore.StoreGraph | pkg/sqlite/load.go:394-513 | heads, default channel and rows of the graph's channels are rewritten, all else stays, and the report names exactly the missing heads, the invalid channels and a missing default |
| GraphLoad.GraphOfUnique | pkg/sqlite/graphloader.go:65-144 | the rows of a channel determine its graph |
| GraphLoad.Passes | pkg/sqlite/graphloader.go:73-124 | after both passes the nodes are the actual bundles and all that replace something, with exactly their replaced keys, and the head candidates are the bundles nothing replaces |
| GraphLoad.GraphFromEntries | pkg/sqlite/graphloader.go:65-144 | succeeds exactly if every channel with an actual bundle has one head candidate, and then gives each such channel its graph |
| GraphLoad.KeyNamesBundle | pkg/sqlite/query.go:166-210 | the keys the query joins tell bundles apart by name, whether they have a row or not |
| GraphLoad.Generate | pkg/sqlite/graphloader.go:32-62 | the graph of the package as its rows and bundles determine it; no channels for a package without a default; fails exactly on an empty bundle key or a channel without a single head |
| RoundTrip.WalkGivesGraph | pkg/sqlite/graphloader.go:65-144 | rows flattened from a single chain are rebuilt to the same head, nodes and replaced keys |
| RoundTrip.AnnotatedAsWalk | pkg/sqlite/query.go:166-210 | the query joins the stored rows of a walk to exactly one row per node and per replaced key that is no node |
| RoundTrip.StoredGraphReadsBack | pkg/sqlite/load.go:421-506 | a stored single chain whose node keys match bundle rows and whose walk covers all nodes is read back unchanged if and only if the replaced keys that are no nodes are of names without a bundle row |
| RoundTrip.StoreThenGenerate | pkg/sqlite/graphloader.go:32-62 | storing a package graph and generating it again gives back a single-chain channel that was not reported if and only if its replaced keys that are no nodes are of names without a bundle row |
| RoundTrip.SkippedPatchComesBack | pkg/sqlite/graphloader.go:86-91 | the chain skippatch makes of 1.0.1 over 1.0.0, whose row is still there, is not read back |
| SemverRuns.SortedWalkCovers | pkg/sqlite/load.go:492-498 | the walk through a sorted chain meets every node, so it is never reported as invalid |
| SemverRuns.GeneratesChains | pkg/sqlite/graphloader.go:32-62 | from an index of sorted chains generating gives the sorted chain of each channel's members |
| SemverRuns.AddedToChains | pkg/registry/bundlegraphloader.go:52-150 | adding a bundle to sorted chains gives the sorted chains with it |
| SemverRuns.StoredChains | pkg/sqlite/load.go:394-513 | storing sorted chains gives an index of sorted chains |
| SemverRuns.StepKeepsChains | pkg/registry/populator.go:241-259 | a successful step keeps the index one of sorted chains, with the added bundle |
| SemverRuns.RunGivesChains | pkg/registry/populator.go:241-259 | after any run every channel is the sorted chain of the bundles added to it, the greatest at its head |
| SemverRuns.OrderIndependence | pkg/registry/populator.go:241-259 | two successful runs that add the same bundles give the same channel graphs |
| SemverRuns.LoadManifestsSemver | pkg/registry/populator.go:241-259 | on an index built by earlier steps the step succeeds exactly for a bundle with a new name, a version new to all its channels, no substitution and a default channel that exists; the new row holds the bundle's own fields; if only the default channel is missing, the bundle row and the graph stay stored and the package has no default; on any other failure nothing changes |
| SemverSteps.StepExists | pkg/registry/populator.go:241-259 | every accepted bundle can be added by a step |
| SemverSteps.StepAccepted | pkg/registry/populator.go:241-259 | a step adds accepted bundles only |
| SemverOrder.AnyOrderIff | pkg/registry/populator.go:241-259 | every permutation of a list of bundles can be added from the empty database if and only if names are nonempty and distinct, nothing is substituted, versions parse, no bundle repeats a channel, bundles of a package that share a channel differ in precedence, and each bundle names one of its own channels as default or names none and has a nonempty least channel |
| SemverOrder.AnyOrderSameGraphs | pkg/registry/populator.go:241-259 | then every permutation succeeds and ends with the same channel graphs, the sorted chains of all added versions |
| SemverOrder.SecondOnly | pkg/registry/bundlegraphloader.go:38-49 | a bundle whose default channel only another bundle brings can be added after it and not before it |
| SemverOrder.OrderMatters | pkg/registry/bundlegraphloader.go:38-49 | a concrete pair of bundles that can be added in one order only |
| Tail.GetTail | pkg/sqlite/load.go:1317-1393 | ends on any rows, cyclic ones included; gives exactly the names reachable by at least one edge, and the default-channel error exactly if the start or a reachable name heads a channel whose name some package has as its default |
| Deprecation.RmTailBundleEffect | pkg/sqlite/load.go:1278-1315 | pointers to the bundle's entries are cleared, its row and entries and the channels it heads are gone, nothing else changes |
| Deprecation.RmTail | pkg/sqlite/load.go:1434-1441 | for any order of the tail exactly its bundle rows, its entries and the channels it heads are gone |
| Deprecation.CutResolves | pkg/sqlite/load.go:1278-1315 | no surviving entry points to a deleted one |
| Deprecation.DeprecateBundle | pkg/sqlite/load.go:1416-1466 | exactly everything below the bundle and the channels headed by it or by something below it disappear, all package rows stay; fails, without a change, exactly if there is no such image, a default channel would go, or the bundle lies below itself |
| Deprecation.OtherHeadGoes | pkg/sqlite/load.go:1317-1342 | deprecating the head of a second channel that is no default works and takes exactly that channel with its entries |
| Deprecation.DeprecationKeepsSound | pkg/sqlite/load.go:1416-1466 | the index stays sound, every package keeps its default channel, and no channel is headed by a deprecated bundle if none was |
| Deprecation.DeprecationKeepsPointers | pkg/sqlite/load.go:1416-1466 | the pointers stay sound even where heads are not |
| Removal.RmBundles | pkg/sqlite/load.go:941-945 | for any order the given bundles, their entries and the channels and packages that depended on them are gone, nothing else |
| Removal.RemovePackage | pkg/sqlite/load.go:927-973 | the package's rows and bundles are gone and then all stranded bundles; fails, without a change, exactly if an entry that stays points at an entry of one of the package's bundles |
| Removal.RemovedIsCleared | pkg/sqlite/load.go:927-973 | gone are exactly the bundles with an entry in the package, the package and its channels, the channels these bundles head, their entries and the packages whose default channel is among them |
| Removal.RemovalKeepsSound | pkg/sqlite/load.go:927-973 | the index stays sound |
| Removal.ResolvesIff | pkg/sqlite/load.go:927-973 | the commit of a removal finds all pointers resolved exactly if no entry that stays points at an entry of one of the package's bundles |
| Removal.StrandedRows | pkg/sqlite/load.go:1484-1487 | in a sound index removing stranded bundles touches bundle rows without an entry only |
| Removal.StrandedEffect | pkg/sqlite/load.go:1468-1487 | in a sound index the bundles without an entry are gone and nothing else |
| Removal.StrandedKeepsSound | pkg/sqlite/load.go:1468-1487 | the index stays sound |
| SubstitutionChains.Linear | pkg/sqlite/load.go:198-270 | two bundles that substitute for the same one, directly or not, are on one chain |
| SubstitutionChains.SpliceChained | pkg/sqlite/load.go:233-263 | splicing a bundle between an older and a newer one keeps chains ascending and substitutions unique |
| SubstitutionChains.SplicePosition | pkg/sqlite/load.go:228-263 | the spliced bundle lies over every older bundle of the chain and under every newer one |
| Substitutes.AppendSkips | pkg/sqlite/load.go:367-392 | the old skips stay in front, behind them come the given names that were not there before, in their order |
| Substitutes.CollectBelow | pkg/sqlite/load.go:272-287 | following the substitutions down ends and adds exactly the names below the bundle |
| Substitutes.TransferSkips | pkg/sqlite/load.go:288-306 | following the substitutions up ends and appends the skips to exactly the bundles over the added one |
| Substitutes.CloseSkips | pkg/sqlite/load.go:308-338 | exactly the skips and, for each of them, every bundle over it that is not reached through the added bundle, each once |
| Substitutes.TopOf | pkg/sqlite/load.go:340-357 | the replaced bundle's newest substitution, which nothing substitutes for |
| Substitutes.Place | pkg/sqlite/load.go:198-270 | the loop ends; it fails exactly if a bundle over the substituted one has an equal or incomparable version, and else puts the bundle between the greatest older and the least newer one |
| Substitutes.AddSubstitutesFor | pkg/sqlite/load.go:154-365 | fails exactly on a rival version; otherwise the chains ascend, nothing is substituted for twice and every bundle skips all that lie below it; the added bundle skips exactly its declared skips, what lies below it and what lies over one of these without going through it, each once; a bundle over it gains exactly its name, its declared skips and what lies below it, and no other row gains a skip |
| Substitutes.NothingAboveSkipped | pkg/sqlite/load.go:323-332 | the walk up from a skipped bundle ends at the added one: without declared skips it skips nothing that substitutes for it |
| Substitutes.SitsByVersion | pkg/sqlite/load.go:198-270 | the added bundle lies over the declared one and all older bundles of its chain, and under all newer ones |
| Substitutes.DeletionKeepsSound | pkg/sqlite/load.go:975-1017 | deleting bundle rows leaves the remaining substitution chains in order |
| Soundness.PointersAcyclic | pkg/sqlite/load.go:606-724 | where pointers are sound, pointer chains stay in their channel, get deeper and never come back |
| Soundness.SoundForBundles | pkg/sqlite/load.go:56-70 | soundness depends on the bundle rows through the channel heads only |
| Upkeep.RowsHeadOnTop | pkg/sqlite/load.go:606-620 | a channel's recorded head is on top of freshly written rows exactly if it is the first of their chain |
| Upkeep.LoadKeepsSound | pkg/sqlite/load.go:515-726 | a load keeps the index sound and heads no channel with a deprecated bundle |
| Upkeep.StoreKeepsSound | pkg/sqlite/load.go:394-513 | storing a graph keeps the index sound if and only if no channel with a row has a new head without a bundle row |
| Upkeep.MissingHeadUnsound | pkg/sqlite/load.go:409-414 | a concrete graph whose head has no bundle row makes a sound index unsound |
| Upkeep.GeneratedHeadsFit | pkg/registry/populator.go:241-259 | a graph generated from the index and extended by the bundle just added never is such a graph |
| Runs.ReplacesModeStepKeeps | pkg/sqlite/load.go:515-533 | every operation but the graph writer keeps the index sound and free of deprecated heads |
| Runs.RunIsSound | pkg/sqlite/load.go:394-533 | every database of every run is sound, where a stored graph has no channel that keeps its row with a head without a bundle row |
| Runs.RunPointersSound | pkg/sqlite/load.go:394-533 | in every database of every run, stores of graphs with missing heads included, pointers stay in their channel and lead deeper or to an entry without a pointer |
| Runs.RunPointersEnd | pkg/sqlite/load.go:394-533 | in every database of every such run no entry reaches itself along the pointers |
| Runs.RunHeadsNotDeprecated | pkg/sqlite/load.go:582-600 | no run without the graph writer leaves a channel with a deprecated head |
| SqlLoader.Loader.AddOperatorBundle | pkg/sqlite/load.go:56-152 | succeeds exactly for a new nonempty name, a substitution only with alpha features and without a rival version; the row is added, no bundle changes path or version, and the index stays valid |
| SqlLoader.Loader.AddPackageChannels | pkg/sqlite/load.go:515-533 | the effect of a load, with the declared default channel, or no change, exactly as the manifest is loadable; the index stays valid |
| SqlLoader.Loader.AddPackageChannelsFromGraph | pkg/sqlite/load.go:394-513 | the effect and report of storing the graph; the index stays valid exactly if the heads fit |
| SqlLoader.Loader.AddBundleSemver | pkg/sqlite/load.go:1019-1031 | the bundle is added and then the graph stored; if the bundle is refused nothing changes |
| SqlLoader.Loader.DeprecateBundle | pkg/sqlite/load.go:1416-1466 | the exact effect of deprecating, or no change; the index stays valid |
| SqlLoader.Loader.RemovePackage | pkg/sqlite/load.go:927-973 | the exact effect of removing a package and then stranded bundles, or no change, exactly as an entry that stays points at one of the package's bundles; the index stays valid |
| SqlLoader.Loader.RemoveStrandedBundles | pkg/sqlite/load.go:1468-1482 | the stranded bundles are gone; the index stays valid |
| Properties.Parse | internal/property/property.go:147-208 | an error exactly if some value does not decode as its type; otherwise packages, channels and skips are exactly the decoded values of their type, in order |
| Properties.ParseProperties | internal/declcfg/properties.go:9-23 | as before, and an error also if a channel is listed twice |
| Properties.Deduplicate | internal/property/property.go:210-227 | each property once, where it occurs first |
| Properties.FirstOccurrencesFacts | internal/property/property.go:210-227 | deduplication keeps exactly the same properties and repeats none |
| Properties.NothingNew | internal/property/property.go:210-227 | appending properties that are there already does not change the result of deduplication |
| DeclConfig.AddPackages | internal/declcfg/declcfg_to_model.go:13-28 | each name maps to the package declared last with it |
| DeclConfig.FileBundles | internal/declcfg/declcfg_to_model.go:30-80 | fails exactly on a bundle without a known package, readable properties, a matching package property or a channel; otherwise the index holds exactly the bundles' placements in their channels, with the default channels that exist |
| DeclConfig.FiledMembers | internal/declcfg/declcfg_to_model.go:55-79 | with distinct names every bundle is filed in exactly the channels its properties list |
| DeclConfig.PayloadOkIff | internal/model/model.go:234-261 | a bundle's own fields are valid exactly if all its properties decode, exactly one of them names a package, and it has an image or objects |
| DeclConfig.ValidateIndex | internal/model/model.go:24-85 | an index validates exactly if packages, channels and bundles carry their keys' names and are valid, and every default channel exists |
| DeclConfig.NoEmptyDefault | internal/declcfg/declcfg_to_model.go:82-93 | an index that validates needed no empty default channel |
| DeclConfig.NormalizeLists | internal/model/model.go:278-291 | for any order of the copies, each property list is normalized as often as there are copies that share it |
| DeclConfig.FiledShares | internal/declcfg/declcfg_to_model.go:66-77 | copies share a property list only if they come from the same declaration |
| DeclConfig.ConvertToModel | internal/declcfg/declcfg_to_model.go:10-102 | the valid index of all placements with normalized property lists; fails exactly on a bundle that cannot be filed or an index that does not validate |
| ModelToConfig.CollectAll | internal/declcfg/model_to_declcfg.go:46-66 | for any order each bundle of the package is collected from all its channels, its properties one list after the other |
| ModelToConfig.TraverseModelChannels | internal/declcfg/model_to_declcfg.go:46-74 | one bundle per name with the fields of a copy and each property of any copy once |
| ModelToConfig.SortBy | internal/declcfg/model_to_declcfg.go:36-41 | a permutation sorted by name |
| ModelToConfig.ConvertFromModel | internal/declcfg/model_to_declcfg.go:10-44 | exactly the packages and bundles of the model, each once, sorted by name |
| ConfigRoundTrip.PackagesBack | internal/declcfg/model_to_declcfg.go:25-32 | the packages come back as declared |
| ConfigRoundTrip.SharingCount | internal/declcfg/declcfg_to_model.go:55-79 | with distinct names a property list is shared by as many copies as its bundle lists channels |
| ConfigRoundTrip.CopiesAppended | internal/declcfg/model_to_declcfg.go:63-71 | however many channels a bundle is in, its deduplicated properties are those of one copy |
| ConfigRoundTrip.BundlesBack | internal/declcfg/model_to_declcfg.go:46-74 | the bundles come back as declared, with normalized and deduplicated properties |
| ConfigRoundTrip.FoundIsDeclared | internal/declcfg/declcfg_to_model.go:55-79 | each bundle found in a channel of the model stands for a declared bundle: its replaces is that of the bundle's property for the channel, its skips are the decoded skip properties in order, its image and its other fields are the declared ones |
| ConfigRoundTrip.DeclaredIsFound | internal/declcfg/declcfg_to_model.go:55-79 | each channel a declared bundle lists holds the bundle in the model, with the replaces listed for that channel |
| ConfigExamples.TwoBundlesConvert | internal/declcfg/declcfg_to_model.go:10-102 | a config with two bundles in one channel, the second replacing the first, converts, and the second is the only bundle nothing replaces |
| ConfigRoundTrip.ThroughModel | internal/declcfg/declcfg_to_model.go:10-102 | for distinct package names and distinct bundle names per package, converting to the model and back gives the same packages and bundles, sorted by name, each property list normalized once per channel and deduplicated, which is once if compact values are their own compact form, and then exactly the compact forms of the declared properties come back, each once; fails exactly on a bundle that cannot be filed or an index that does not validate |
| DirectoryGraph.GetChannelNodes | pkg/registry/directoryGraphLoader.go:123-154 | for any order and any replaces, cycles and missing names included, the nodes are exactly the head and the names reachable from it, each with its declared replaces |

## Left out

- SemverRuns.LoadManifestsSemver: models the step without skippatch and without alpha features; skipped patch versions can come back as nodes when the graph is reloaded, so runs with skippatch have no such chain.
- Substitutes.AddSubstitutesFor: is stated for chains that are in order before the call and a bundle newer than the one it substitutes for, since on others the loops of the source need not end; the silent return on a second substitution for the same bundle cannot happen then. Skips are nonempty names.
- Substitutes.Place: is stated under the same conditions.
- SqlLoader.Loader.AddOperatorBundle: with alpha features it is stated under these conditions too; without them there is none.
- SqlLoader.Loader.AddBundleSemver: likewise, since it starts with that addition.
- Deprecation.DeprecateBundle: is stated for indexes whose foreign keys hold and whose pointers stay in their channels, which is what every run leaves.
- Model.Validate: back pointers of the model to packages and channels are not modelled.
- Runs.RunIsSound: a store whose heads do not fit is left out of the runs, since it is exactly what makes an index unsound; pointers are followed over all stores.
- IndexRuns.RunReads: additions are those without alpha features, since adding a substitution rewrites the rows of other bundles without rewriting their entries.
- ModelToConfig.ConvertFromModel: is stated for models whose packages and bundles are filed under their own names, which is what validation checks.
- GraphInsert.AddBundleToGraph: the graph is a value, and so are the models of the conversions; the source updates them in place and may leave a half-updated graph behind an error, which its caller drops.
- JSON and YAML decoding, CSV parsing and icons: values arrive decoded, and the JSON library is a parameter of the property functions.
- Version text: a version is represented by what it parses to.
- Skips are modelled as a sequence of names without commas instead of a joined column.
- The tables for APIs, dependencies, properties and related images, and the queries on them, apart from the foreign key of the deprecation property: they add joins but no harder graph property.
- SQL errors, migrations, concurrency of the populator, overwriting bundles, and the sanity check over all inputs: only commit or no change is modelled.
- Image pulling, unpacking, servers, clients, commands and logging.
- ClearNonHeadBundles and AddBundlePackageChannels: the first touches columns that are not modelled, the second is two modelled operations in one transaction.
