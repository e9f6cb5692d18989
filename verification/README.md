# Procedures, blueprints, releases, settings, sizing and cases

A Dafny model of the parts of the engine that keep state over time, with proofs of what they promise.

* **Playbook** (`LinkGraph`, `Procedures`, `LinkChecks`, `DocumentEdits`, `ProcedureStore`, `Flattening`, `MethodShape`,
  `Windows`, `Upstream`, `NestedWalks`, `WalkView`, `Commutation`, `ViewCommutes`, `WalkLines`, `WalkFile`, `FlatWalk`).
  A library maps ids to lists of steps, and a step may link another procedure. The searches over that graph, the edits
  that must keep it free of circles, the flattener that inlines each linked procedure once, the cutting of a long method
  into walks, and the walk itself: a checklist file whose edits write through to the library. `WalkView` says what each
  command does to boxes and library; `FlatWalk.Walk` does it on the lines of the file and the documents of the store, and
  is proved to do exactly that.
* **Blueprints** (`Installer`, `Cascade`, `CascadeLaws`, `BlueprintStatus`, `BlueprintIds`). Where a leaf widget comes from
  and is found, installing a blueprint with the leaves it pins and an undo log, against the status report that looks at the
  result; and the ids.
* **Releases** (`Contents`, `Releases`). Head, archive and changelog of one library item under check-in, restore and blueprint
  check-in.
* **Settings** (`Texts`, `Ordering`, `Decimals`, `TomlLines`, `TomlFile`, `TomlRoundTrip`, `Settings`,
  `SettingsKeys`, `SettingsLaws`).
  The program's own small TOML writer against a reader that follows TOML v1.0.0, and the settings commands over both.
* **Sizing** (`PackSizing`). Growing a battery pack until it meets the required flight time, over the reals.
* **Cases** (`Casebook`). The store of problems, diagnoses and episodes.

`Outcomes`, `Marks`, `Sets` and `Sequences` are shared by the others; `Counterexamples` holds inputs at which the program does
not do what one would expect.

`dafny verify dfyconfig.toml` checks everything.

## What the code does not do

These came out of the proofs. The member named first states exactly when it happens, the one after it in
`Counterexamples` gives an input.

* A walk command that adds or removes a step at a box whose step inlines a procedure leaves a walk that differs from
  the flattened method (`Commutation.CommutesExactly`, `ViewCommutes.EditingCommutes`; `AddedAtALink`).
* Editing a closed box drops its reason (`WalkView.CommandKeepsReasons`; `EditedWhenClosed`).
* A step whose text starts with done: or not needed here: has that text taken for its box's reason, and the reason of the
  tick is lost when the walk is next written (`WalkView.RenderKeeps`, `WalkView.ReasonInMeans`; `TextTakenForReason`).
* A method without steps is reported as one walk and cannot be opened (`Windows.Reach`, `Windows.OpenFlat`), and a
  procedure without steps can never be walked closed, nor one that leads to it (`NestedWalks.ClosesIffClosable`;
  `WithoutSteps`).
* A registry is asked for a leaf, not for a version of it. A pin that only a registry can fill installs whatever that has
  now, the install succeeds, and the blueprint is broken (`BlueprintStatus.InstalledIsHealthy`, `Installer.DeliveredWhen`;
  `ServedElsewhere`). For the same reason a rollback can leave an overridden leaf at another version, or gone
  (`CascadeLaws.RollbackRestores`, `CascadeLaws.StoppedRestores`; `NotBroughtBack`).
* A blueprint that pins one leaf at two versions is broken as soon as it is installed (`BlueprintStatus.InstalledIsHealthy`;
  `PinnedTwice`). That takes a leaf that is installed already: of one that is not, the second install fails and all is
  rolled back (`PinnedTwiceAbsent`). The schema check at check-in refuses such pins (blueprints.py, lines 262-264); the
  installer reads the manifest from the library, or an archived one for an older version, and does not check it again, so
  a library entry edited by hand or written before that check gets through.
* A leaf that stands under a registry's prefix also answers to its bare id. A pin of the bare id then takes it from its
  place, unwarned (`PrefixedMoves`), and a pin of the prefixed id leaves it an orphan (`BlueprintStatus.OrphansShrink`;
  `PrefixedIsOrphan`).
* A rolled-back install still counts as an install (`Cascade.Project.InstallBlueprint`).
* The check-in guard against unchanged content compares the bytes of the hashed folders, one after the other, and the
  manifest: files elsewhere, and names inside, do not count (`Releases.CheckinAccepts`; `ChangesNotSeen`). The comment on
  `_manifest_core` in checkin.py says stamps are left out of that comparison; the code leaves out the version only, and
  the model follows the code.
* Hash, copy and archive filter different names. Check-in drops a language's build artifacts at every depth, the hash reads
  them: an untouched copy that has some is bumped again and again (`Releases.CheckedInIsNoChange`; `BumpedForNothing`).
  Archiving drops nested folders called history and files called changelog.json, copying keeps them: a restore does not
  bring them back (`Releases.RestoreReturns`, `Releases.RunArchives`; `HistoryFolderLost`).
* A blueprint check-in leaves top-level items behind that the working copy no longer has, hashed folders included, puts a
  file into the folder of the same name, and drops nested caches and cg folders (`Releases.BlueprintHeadIsCopy`;
  `DroppedFolderStays`, `NestedFolderDropped`).
* The bump of a version with an epoch loses the epoch and sorts below it (`Releases.EventKeepsOrder`; `EpochLost`).
* An id with an empty registry segment does not compose back (`BlueprintIds.ComposeParsed`; `EmptyRegistry`). The
  pattern for names ends in `$`, which lets one line feed at the end of a name through; the model follows it.
* A setting whose value holds a control character makes the whole file unreadable, so that every setting falls back to
  its default (`SettingsLaws.SavedLoads`; `OneLineFeedForgetsAll`). When the file holds such a text as an escape, an
  accepted call does the same unless it overwrites that very text, and no other such text is left, with a clean value
  (`SettingsLaws.SavedLoads`, `SettingsLaws.UncleanIsLost`; `EscapeForgetsAll`).
* A path override for a binary whose name has a dot, a blank or anything else that is not a bare key never reads back
  (`SettingsLaws.PathReadsBack`; `DottedPathLost`). An accepted call drops top-level values and nested tables from the file
  (`SettingsLaws.SetThenGet`).
* The sizing loop does not end for a string that costs more to carry than it earns (`PackSizing.SizeableIff`;
  `NeverEnough`).

## Model

| member | source | states |
|---|---|---|
| `LinkChecks.LinkPath` | engine/playbook/playbook/ops.py:313-336 | the depth-first search ends on every library, cyclic ones included; a path it returns is a real chain of links from start to target, and it returns none exactly when no chain exists |
| `LinkChecks.RequireProcedure` | engine/playbook/playbook/ops.py:339-355 | a link is refused exactly when it is a self-link, its procedure is missing, or the new link would lie on a circle; the circle refusal carries the chain back |
| `LinkGraph.NewLinkOnCircle` | engine/playbook/playbook/ops.py:339-355 | adding a link puts it on a circle exactly when it is a self-link or its end already leads back to its owner |
| `LinkChecks.ValidateLinks` | engine/playbook/playbook/ops.py:436-467 | validation of one procedure names exactly its dangling links and self-links, and every step whose link leads back, with a real chain |
| `LinkChecks.AllValidIffSound` | engine/playbook/playbook/ops.py:436-467 | every procedure passes its link checks if and only if the whole graph is acyclic and nothing dangles |
| `LinkGraph.BatchKeepsAcyclic` | engine/playbook/playbook/ops.py:286-310 | links of one owner that were each checked against the graph before the batch cannot close a circle together |
| `DocumentEdits.AddsNext` | engine/playbook/cg/data_gofai_procedure_python/src/gofai_procedure.py:156-193 | one entry of a batch goes right after the entry before it, or fails when the batch has nowhere to start |
| `DocumentEdits.AppendSteps` | engine/playbook/playbook/ops.py:286-310 | a batch lands as one block in its own order, at the end or right behind the step it names, or nothing does; it lands exactly when every entry is complete, every link is allowed as the library stood, and the result is valid; a refusal gives a cause that is there |
| `ProcedureStore.Store.CreateProcedure` | engine/playbook/playbook/ops.py:257-283 | a new procedure is written whole, or refused and nothing changes: taken id, twin, or a batch that does not fit |
| `ProcedureStore.Store.AddSteps` | engine/playbook/playbook/ops.py:513-526 | the document afterwards is the old one with the steps behind it, or behind the step named; or nothing changes, and why |
| `ProcedureStore.Store.ChangeStep` | engine/playbook/playbook/ops.py:529-548 | the document afterwards differs in one step with that title, in what was asked for only; or nothing changes, and why |
| `ProcedureStore.Store.RemoveOne` | engine/playbook/playbook/ops.py:551-558 | the document afterwards lacks one step with that title; or nothing changes, and why |
| `ProcedureStore.Store.Move` | engine/playbook/playbook/ops.py:561-582 | the document afterwards has the uniquely titled step at the position and the others in their order; or nothing changes, and why |
| `DocumentEdits.EditStepLands` | engine/playbook/playbook/ops.py:529-548 | an edit changes one step with the title, in what was asked for and nothing else, or is refused for a cause that is there |
| `DocumentEdits.RemoveStepLands` | engine/playbook/playbook/ops.py:551-558 | a removal takes out one step with the title and leaves the rest in order, or is refused for a cause that is there |
| `DocumentEdits.MoveStepLands` | engine/playbook/playbook/ops.py:561-582 | the moved step is the one with the title, it ends at the asked position, and the other steps keep their order |
| `DocumentEdits.MoveStepRefused` | engine/playbook/playbook/ops.py:561-582 | a move is refused exactly when the title is not on exactly one step, the position is out of range, or the document was invalid |
| `ProcedureStore.Store.Delete` | engine/playbook/playbook/ops.py:585-605 | a procedure goes exactly when no other procedure links it; one that is not stored is refused as such, any other refusal names exactly the linkers |
| `Procedures.ValidIs` | engine/playbook/cg/data_gofai_procedure_python/src/gofai_procedure.py:265-305 | a document is valid exactly when nothing in it is blank, it has as many titles as steps, and its links are ids |
| `Procedures.IdShapeIs` | engine/playbook/cg/data_gofai_procedure_python/src/gofai_procedure.py:300-302 | the ids a link may have, character by character |
| `ProcedureStore.EditKeepsSound` | engine/playbook/playbook/ops.py:505-605 | no edit that is accepted closes a circle, and none leaves a link dangling |
| `ProcedureStore.RunKeepsSound` | engine/playbook/playbook/ops.py:257-605 | over every run of create, add, edit, remove, move and delete the link graph stays acyclic, and stays free of dangling links |
| `Flattening.Expansion.Expand` | engine/playbook/playbook/ops.py:837-857 | the recursion with one shared visited set terminates on every library and computes exactly the flattened list and the visited set it leaves |
| `Flattening.ExpandRoot` | engine/playbook/playbook/ops.py:837-857 | flattening fails exactly when the root is not stored, and else gives the whole method |
| `MethodShape.VisitedIsReachable` | engine/playbook/playbook/ops.py:837-857 | the procedures visited are exactly those reached from the root through existing links that are not framework links |
| `MethodShape.MethodParts` | engine/playbook/playbook/ops.py:837-857 | of every reached procedure the method holds all steps, once, in that procedure's order; of any other procedure none |
| `MethodShape.MethodSteps` | engine/playbook/playbook/ops.py:837-857 | every entry is a step of its source with its title, and two entries of one source keep their order |
| `MethodShape.Depths` | engine/playbook/playbook/ops.py:837-857 | depth rises only by one, from an entry that links a procedure into step 1 of that procedure, and step 1 of a linked procedure comes only so |
| `MethodShape.StaysNested` | engine/playbook/playbook/ops.py:837-857 | between two steps of one procedure the method never comes up above them |
| `MethodShape.CircularIsCircle` | engine/playbook/playbook/ops.py:843-851 | an entry marked circular has a link that lies on a circle of the link graph |
| `MethodShape.NeverCircular` | engine/playbook/playbook/ops.py:843-851 | in an acyclic library no entry is marked circular |
| `MethodShape.MethodInlinedAbove` | engine/playbook/playbook/ops.py:849-851 | an entry marked inlined above really has every step of the linked procedure before it |
| `MethodShape.EntriesRead` | engine/playbook/playbook/ops.py:847-851 | every entry carries the title, text and link of the step it names |
| `MethodShape.MarksExact` | engine/playbook/playbook/ops.py:846-853 | an entry is marked circular if and only if its link goes to a procedure it stands inside of, inlined above if and only if it goes elsewhere, can be followed and was linked before, framework if and only if it goes to one of the loop's own |
| `MethodShape.FirstLinkInlines` | engine/playbook/playbook/ops.py:852-856 | below an entry that links a procedure with steps, that procedure has started by the next entry at the latest |
| `MethodShape.InlinedRightBelow` | engine/playbook/playbook/ops.py:852-856 | right below the first entry that links a procedure with steps stands that procedure's first step, one deeper |
| `Windows.Cut` | engine/playbook/playbook/ops.py:943-955 | the loop over candidate ends finds the specified cut, for every limit |
| `Windows.CutUnique` | engine/playbook/playbook/ops.py:943-955 | the declarative description of a cut (first surface within a third past the limit, short tail taken along) has one solution |
| `Windows.WindowLength` | engine/playbook/playbook/ops.py:943-955 | a window that is not the last has between L and L + L/3 steps and leaves more than L/5; the last has at most L + L/3 + L/5 |
| `Windows.DeepEndOnlyWhenForced` | engine/playbook/playbook/ops.py:943-955 | a window ends inside an inlined procedure exactly when there is no depth-0 entry or end of method within L/3 past the limit and the tail is too long to take along |
| `Windows.OpenFlat` | engine/playbook/playbook/ops.py:995-1071 | a flat open without a purpose, of an unfinished walk, of a missing or invalid procedure or from a start outside the method is answered so, in that order; else it gives the window and the start of the next walk |
| `Windows.WindowsPartition` | engine/playbook/playbook/ops.py:1038-1071 | following each walk's next start from any start gives windows that concatenate to the rest of the method |
| `Windows.WalkCount` | engine/playbook/playbook/ops.py:943-955 | the number of walks k satisfies (k-1)L < n <= k(L + L/3) + L/5, and every window keeps its length bounds |
| `Windows.Reach` | engine/playbook/playbook/ops.py:928-940 | the walks counted without opening anything are exactly the opens a worker makes; an empty method still reads as one |
| `Windows.SurfaceSplitsNothing` | engine/playbook/playbook/ops.py:943-955 | a window that ends at the surface leaves no procedure but the root with steps on both sides |
| `Upstream.ParentLinks` | engine/playbook/playbook/ops.py:876-889 | the index built by the loops holds exactly the procedures whose steps link each id |
| `Upstream.Gravity` | engine/playbook/playbook/ops.py:860-873 | the frontier loop ends and counts exactly the other procedures that lead to this one |
| `Upstream.Chains.Climb` | engine/playbook/playbook/ops.py:911-922 | one call appends to the shared list exactly the finished climbs that start with its path, each once, in the order of the names |
| `Upstream.ChainsAbove` | engine/playbook/playbook/ops.py:892-925 | the full list holds exactly the maximal simple link paths that end at the procedure, each once and in the order of the names upwards; the first twelve are shown, and orphan, roots and depth are read off the full list |
| `Upstream.ChainsAreGravity` | engine/playbook/playbook/ops.py:860-925 | the procedures on the chains, the procedure itself aside, are exactly those gravity counts |
| `Upstream.OrphanIffWeightless` | engine/playbook/playbook/ops.py:860-925 | orphan holds if and only if gravity is 0 |
| `Upstream.GravityGrows` | engine/playbook/playbook/ops.py:860-889 | in an acyclic library gravity strictly grows along every link |
| `Upstream.RootsAreParentless` | engine/playbook/playbook/ops.py:892-925 | in an acyclic library the roots are exactly the ancestors that nobody links |
| `NestedWalks.WorkingTree.OpenWalk` | engine/playbook/playbook/ops.py:995-1036 | a nested open with a purpose adds one walk of a stored, valid procedure's steps, or hands back the unfinished one |
| `NestedWalks.WorkingTree.TickWalk` | engine/playbook/playbook/ops.py:740-814 | a tick of a nested walk goes through exactly when its numbers exist, done steps bring a note and skipped ones a reason, a bulk call is planned, done links have a closed walk and skipped links an opened one; then exactly those boxes change |
| `NestedWalks.TickAsks` | engine/playbook/playbook/ops.py:740-814 | whatever a tick of a nested walk changes, it changes at boxes it names and only with what that asks for: note and closed walk, or reason and opened one, and a plan for many |
| `NestedWalks.BlockedNeverClose` | engine/playbook/playbook/ops.py:690-699 | in every run of nested opens and done ticks, a procedure that lies on a link cycle, lacks steps, is missing or invalid, or leads to such a one never has a closed walk |
| `NestedWalks.EmptyTreeStuck` | engine/playbook/playbook/ops.py:690-699 | the empty working tree, where every such run can start, has nothing closed that should not be |
| `NestedWalks.ClosesIffClosable` | engine/playbook/playbook/ops.py:781-796 | a walk that done ticks brought this far can be closed by some finite schedule of opens and done ticks if and only if its procedure and all it leads to exist, are valid, have steps and lie on no cycle |
| `NestedWalks.SoundIsClosable` | engine/playbook/playbook/ops.py:690-699 | in a library without circles or dangling links whose documents are all valid and have steps every procedure is closable |
| `NestedWalks.SkippingCloses` | engine/playbook/playbook/ops.py:790-796 | skipping, which asks only for an opened walk, closes any walk when nothing dangles and all documents are valid, cycles included |
| `WalkView.RenderAgrees` | engine/playbook/playbook/ops.py:1141-1178 | re-rendering a walk that agrees with the library changes nothing but reasons, and none of those while no text starts like a reason |
| `WalkView.RenderKeeps` | engine/playbook/playbook/ops.py:1141-1178 | with nothing under open boxes, re-rendering keeps every reason if and only if no shown step's text is taken for another one |
| `WalkView.ReasonInMeans` | engine/playbook/playbook/ops.py:1158-1170 | a text is taken for a reason exactly when it starts with done: or not needed here: |
| `WalkView.TickCloses` | engine/playbook/playbook/ops.py:797-820 | a successful tick removes exactly the asked numbers from the open set and, while no text starts like a reason, gives the asked boxes this call's words and changes no other box |
| `WalkView.TickAsks` | engine/playbook/playbook/ops.py:740-780 | whatever a tick of a flat walk changes, it changes at boxes it names, and only with a plan that places them and the words that a done or skipped step asks for |
| `WalkView.CommandKeepsAgreement` | engine/playbook/playbook/ops.py:1181-1229 | after tick, edit, add or remove: numbers are 1..n, (source, step) pairs distinct and in range, every title its source step's |
| `WalkView.CommandKeepsReasons` | engine/playbook/playbook/ops.py:1181-1194 | while no text starts like a reason, every closed box has a reason for its mark after every command but one: an edit of a closed box, which loses it |
| `WalkView.CommandReasons` | engine/playbook/playbook/ops.py:1141-1229 | while no text starts like a reason, an accepted command leaves every box its very words, but for the boxes it ticks, edits, adds or removes, in order |
| `WalkView.RunKeepsView` | engine/playbook/playbook/ops.py:1074-1229 | over every run of commands on one walk the walk stays a view of the library, and stays explained when only open boxes are edited and no text starts like a reason |
| `WalkView.RunKeepsReasons` | engine/playbook/playbook/ops.py:797-820 | over every run of commands, while no text starts like a reason, each box carries exactly the words of the latest accepted tick that asked for it, followed back through insertions and removals |
| `WalkView.ClosedSayWhy` | engine/playbook/playbook/ops.py:797-820 | when only open boxes are edited and no text starts like a reason, each closed box carries the latest tick's words for it and each open one none |
| `Commutation.MethodCommutes` | engine/playbook/playbook/ops.py:837-857 | when one step of one procedure is replaced, the new method is the old one remapped, provided the step inlines nothing or stays one step |
| `Commutation.CommutesExactly` | engine/playbook/playbook/ops.py:837-857 | and that proviso is exact: the remapped method is the new method if and only if it holds |
| `ViewCommutes.OpenedAgrees` | engine/playbook/playbook/ops.py:1038-1063 | a freshly opened window agrees with the library and shows its window of the method |
| `ViewCommutes.EditingCommutes` | engine/playbook/playbook/ops.py:1181-1229 | editing the view commutes with flattening: a walk of any window still shows its window of the flattened method of the edited library, the rest of which has moved likewise, for added or removed unlinked steps exactly when the box's step inlines nothing there |
| `ViewCommutes.OtherMarksStay` | engine/playbook/playbook/ops.py:1197-1229 | adding or removing at a box leaves every other mark as it was, in order |
| `ViewCommutes.RunCommutes` | engine/playbook/playbook/ops.py:1181-1229 | over every run of such commands the walk is at each moment its window of what flattening the edited library gives |
| `WalkLines.WalkBlocks` | engine/playbook/playbook/ops.py:1074-1094 | reading the lines of a flat or nested walk finds one block per step with its number, mark, title, source if there is one, step and exact line range, the footer cut off the last |
| `WalkFile.ChangeLines` | engine/playbook/playbook/ops.py:798-810 | one pass over the lines that ticks step lines or moves source lines |
| `WalkFile.ChangedLayout` | engine/playbook/playbook/ops.py:1203-1207 | changing lines one by one keeps the file well formed and changes each box as the command says |
| `WalkFile.Renumber` | engine/playbook/playbook/ops.py:1118-1127 | step lines are numbered in file order |
| `WalkFile.RenumberLayout` | engine/playbook/playbook/ops.py:1118-1127 | renumbering the lines is renumbering the boxes |
| `FlatWalk.Walk.constructor` | engine/playbook/playbook/ops.py:1051-1063 | a freshly written walk shows its window's entries as open boxes numbered from one, each block with its entry's text and the one note its mark calls for |
| `FlatWalk.Walk.Render` | engine/playbook/playbook/ops.py:1141-1178 | re-rendering rewrites the file from the library: marks and first reasons are kept, each block has exactly its step's text and one note if the step links, blocks far past the open one are folded; it returns the first open number; a source step that is gone leaves the file alone |
| `FlatWalk.Walk.Tick` | engine/playbook/playbook/ops.py:730-820 | the tick on the file: accepted exactly when the call is, and then the boxes are the ticked ones re-rendered; the numbers left are the open ones |
| `FlatWalk.Walk.EditStep` | engine/playbook/playbook/ops.py:1181-1194 | the edit on file and store together does exactly what the view's command does, or nothing |
| `FlatWalk.Walk.AddStep` | engine/playbook/playbook/ops.py:1197-1213 | the insertion on file and store together, source lines moved and numbers redone, does exactly what the view's command does, or nothing |
| `FlatWalk.Walk.RemoveStep` | engine/playbook/playbook/ops.py:1216-1229 | the removal on file and store together does exactly what the view's command does, or nothing |
| `Cascade.ScanPins` | engine/cartograph/src/cartograph/blueprint_install.py:266-284 | the scan finds exactly the complete pins of installed blueprints |
| `Cascade.PlanCascade` | engine/cartograph/src/cartograph/blueprint_install.py:198-263 | each pin is planned against the leaves as they were, and exactly the overrides are warned about, each naming every blueprint that pins the version that goes |
| `Cascade.Project.ApplyStep` | engine/cartograph/src/cartograph/blueprint_install.py:81-112 | one step of the plan, uninstall and install with their log entries, is exactly the specified step of progress, faults included |
| `Cascade.Project.RunSteps` | engine/cartograph/src/cartograph/blueprint_install.py:80-112 | the cascade ends with exactly the leaves, log and outcome that the steps in order give; nothing is done after the first that fails |
| `Installer.DeliveredWhen` | engine/cartograph/src/cartograph/installer.py:219-295 | an install brings the version asked for exactly when it is the library's head or archived there, or, of a leaf that a registry is asked for, the one version that is served; a registry prefix never looks at the version |
| `CascadeLaws.GoesThrough` | engine/cartograph/src/cartograph/blueprint_install.py:80-112 | without faults a cascade goes through if and only if every pin is there already, or an install brings something and its place is free once the leaf it overrides is gone |
| `CascadeLaws.LeafAfter` | engine/cartograph/src/cartograph/blueprint_install.py:80-112 | after a cascade every leaf is untouched, when its pins were all there, or is what an install of one of the others brought |
| `CascadeLaws.CascadeLogs` | engine/cartograph/src/cartograph/blueprint_install.py:80-112 | however a cascade ends, its log tells how the leaves came to be, and names pinned leaves only |
| `CascadeLaws.RollbackRestores` | engine/cartograph/src/cartograph/blueprint_install.py:326-345 | whatever stopped the cascade, a rollback without faults restores the leaves if and only if a reinstall of each removed one brings it back |
| `CascadeLaws.StoppedRestores` | engine/cartograph/src/cartograph/blueprint_install.py:115-345 | the same asked before the install: the first pin that does not fit stops it, and nothing has changed if and only if each leaf that the pins up to there override can be had again |
| `CascadeLaws.RollbackKeeps` | engine/cartograph/src/cartograph/blueprint_install.py:326-345 | whatever fails, in the cascade or in its rollback, a leaf that is not pinned stays, unless its manifest gives a pinned id |
| `Cascade.Project.Rollback` | engine/cartograph/src/cartograph/blueprint_install.py:326-345 | the leaves after a rollback are exactly those of the log undone from its end, failing undo operations passed over |
| `Cascade.Project.InstallBlueprint` | engine/cartograph/src/cartograph/blueprint_install.py:24-128 | an install is turned away untouched exactly when it is refused; it succeeds exactly when its cascade goes through, with the cascade's leaves; else leaves are the rolled back ones and blueprints those from before; the install count is not rolled back |
| `BlueprintStatus.Status` | engine/cartograph/src/cartograph/blueprint_status.py:19-76 | one report per complete pin in manifest order, with its installed version, missing exactly when there is none and ok exactly when it holds; broken exactly when some pin does not hold |
| `BlueprintStatus.OrphanLeaves` | engine/cartograph/src/cartograph/blueprint_status.py:79-125 | exactly the ids that manifests of leaves give and no installed blueprint pins, and none while there is no blueprint |
| `BlueprintStatus.InstalledIsHealthy` | engine/cartograph/src/cartograph/blueprint_install.py:80-112 | after a successful install the new blueprint's pins all hold if and only if it does not pin one leaf at two versions and each pin held before or an install brings its version |
| `CascadeLaws.UnpinnedUnchanged` | engine/cartograph/src/cartograph/blueprint_install.py:80-112 | leaves the blueprint does not pin are unchanged |
| `BlueprintStatus.BrokenPinIsWarned` | engine/cartograph/src/cartograph/blueprint_install.py:238-257 | every other blueprint's pin that held in its own place and no longer does is named in a returned warning |
| `BlueprintStatus.OrphansShrink` | engine/cartograph/src/cartograph/blueprint_status.py:79-125 | installing beside other blueprints leaves exactly the old orphans it does not pin, if and only if no install brings a leaf under an id that nothing pins and that was no orphan yet |
| `Releases.Bump` | engine/cartograph/src/cartograph/checkin.py:41-60 | a bump exists exactly for a version that can be read, has the form X.Y.Z, and is above it unless the version has an epoch |
| `Releases.BumpIsLeast` | engine/cartograph/src/cartograph/checkin.py:41-60 | a patch is the least X.Y.Z above, a minor bump the least above that ends in 0, a major one the least above that ends in 0.0; a version of another form is bumped by its number |
| `Releases.OrderIs` | engine/cartograph/src/cartograph/engine.py:67-88 | epochs decide first, then the number, then what follows it; what cannot be read stands as 0.0.0 |
| `Releases.IntendedIsRight` | engine/cartograph/src/cartograph/checkin.py:292-296 | the level named when a hand-made bump is refused is the one whose bump would have been accepted |
| `Contents.KeptContentWhole` | engine/cartograph/src/cartograph/checkin.py:428-470 | filtering names at the top and below changes content exactly when it has an entry to drop |
| `Contents.HashCopied` | engine/cartograph/src/cartograph/engine.py:29-64 | a copy has the hash of its original exactly when every hashed file that copying drops is empty |
| `Contents.ArchivedCopies` | engine/cartograph/src/cartograph/checkin.py:439-447 | what was archived is copied whole when it is restored |
| `Contents.OverlaidIs` | engine/cartograph/src/cartograph/blueprint_checkin.py:236-255 | content laid over other content is all that is left, if and only if the lower has nothing more at the top and no folder where the upper has a file |
| `Contents.KeptFiles` | engine/cartograph/src/cartograph/checkin.py:439-447 | filtering keeps exactly the files with no dropped name on their path, in their order |
| `Contents.BytesAreFiles` | engine/cartograph/src/cartograph/engine.py:49-61 | the hash reads exactly the files on no cache or OS metadata path that are not compiled, one after the other |
| `Contents.LeftOut` | engine/cartograph/src/cartograph/checkin.py:430-447 | the names that copying and archiving leave out, at the top and below, for widgets and for blueprints |
| `Contents.BlockedMeans` | engine/cartograph/src/cartograph/blueprint_checkin.py:245-255 | what is in the way when a copied item is laid over the library's |
| `Contents.FilePut` | engine/cartograph/src/cartograph/blueprint_checkin.py:245-255 | a file that falls into a folder takes the place of its namesake or is added, and every other file stays |
| `Releases.CheckinAccepts` | engine/cartograph/src/cartograph/checkin.py:255-470 | exactly when a check-in over a head succeeds, with which version, and that the head is the filtered copy: all of the copy exactly when it has no artifact or other entry that is dropped |
| `Releases.CheckinRefuses` | engine/cartograph/src/cartograph/checkin.py:255-399 | each refusal of a check-in names a cause that is there |
| `Releases.CheckinLogs` | engine/cartograph/src/cartograph/checkin.py:420-428 | the line a release gets on top of the changelog, and that the first one archives nothing |
| `Releases.NeverBumpedTwice` | engine/cartograph/src/cartograph/checkin.py:278-312 | a bump applied by hand beforehand gives the same release as leaving it to check-in; over a head with an epoch it is refused as stale |
| `Releases.CheckedInIsNoChange` | engine/cartograph/src/cartograph/checkin.py:319-355 | the working copy a check-in leaves behind is refused when checked in again, exactly when it has a folder that is hashed and check-in drops no hashed file with anything in it |
| `Releases.EventKeepsOrder` | engine/cartograph/src/cartograph/checkin.py:485-528 | one check-in or restore overwrites no snapshot and keeps versions ordered, exactly unless the head it archives has an epoch |
| `Releases.RunKeepsOrder` | engine/cartograph/src/cartograph/checkin.py:485-614 | over every run of check-ins and restores, widgets or blueprints, without epochs, the head is above every archived version, changelog versions strictly decrease and no snapshot is ever lost or overwritten |
| `Releases.RestoreBringsBack` | engine/cartograph/src/cartograph/checkin.py:585-614 | a successful restore makes the head a copy of the archived content as a patch bump, and the version stays archived |
| `Releases.RestoreReturns` | engine/cartograph/src/cartograph/checkin.py:439-614 | what was archived and restored is what it was, stamp aside, if and only if it has no entry that archiving drops |
| `Releases.RunArchives` | engine/cartograph/src/cartograph/checkin.py:439-614 | over every run, whatever was once the head is the head at the end or was archived by a later event: all of it if and only if it has no entry that this event's archiving drops |
| `Releases.RestoreAccepts` | engine/cartograph/src/cartograph/checkin.py:585-614 | exactly when a restore succeeds |
| `Releases.BlueprintAccepts` | engine/cartograph/src/cartograph/blueprint_checkin.py:104-205 | exactly when a blueprint check-in over a head succeeds, and with which version |
| `Releases.BlueprintHeadIsCopy` | engine/cartograph/src/cartograph/blueprint_checkin.py:208-255 | after a blueprint check-in the head is the working copy if and only if the copy still has every top-level item of the old head, no file where that has a folder, and no entry that is left out |
| `Releases.Entry.Checkin` | engine/cartograph/src/cartograph/checkin.py:201-578 | the check-in on the library entry gives exactly the specified release, or refuses and changes nothing |
| `Releases.Entry.Restore` | engine/cartograph/src/cartograph/checkin.py:585-614 | the restore on the library entry gives exactly the specified release, or changes nothing |
| `Releases.Entry.CheckinBlueprint` | engine/cartograph/src/cartograph/blueprint_checkin.py:104-262 | the blueprint check-in on the library entry gives exactly the specified release, entries dropped and items the copy lacks left in place, or refuses and changes nothing |
| `BlueprintIds.NamesAre` | engine/cartograph/src/cartograph/blueprints.py:24-25 | the names an id may have, character by character |
| `BlueprintIds.BlueprintIdsAre` | engine/cartograph/src/cartograph/blueprints.py:49-68 | the structural check takes bp- in front of two segments or more, or a segment and bp- in front of them |
| `BlueprintIds.ParseSpells` | engine/cartograph/src/cartograph/blueprints.py:71-115 | an id parses as given parts if and only if these parts can stand in an id and spell it |
| `BlueprintIds.ParseErrors` | engine/cartograph/src/cartograph/blueprints.py:82-113 | which error a bad id gets |
| `BlueprintIds.ParsedIsBlueprintId` | engine/cartograph/src/cartograph/blueprints.py:49-115 | every id that parses satisfies the cheap structural check |
| `BlueprintIds.ComposeParsed` | engine/cartograph/src/cartograph/blueprints.py:43-115 | composing a parsed id gives the same string if and only if its registry segment is not empty |
| `BlueprintIds.ParseComposed` | engine/cartograph/src/cartograph/blueprints.py:43-131 | parsing a composed id gives the parts back if and only if the name is valid, the language is hyphen-free and not empty, and the registry is absent or hyphen-free, not empty and not bp |
| `TomlFile.Write` | engine/cartograph/src/cartograph/config.py:294-315 | the nested loops over sorted sections and keys write exactly the specified text |
| `TomlFile.KeysOnce` | engine/cartograph/src/cartograph/config.py:80-100 | a file that reads names no key twice, nor one that runs through another |
| `TomlLines.EscapedReads` | engine/cartograph/src/cartograph/config.py:306-310 | escaped text reads back as itself up to its closing quote, and does not read once a control character or the end of the line comes first |
| `TomlLines.PairReads` | engine/cartograph/src/cartograph/config.py:301-312 | a written line with a bare key and a flag, number or clean text reads back as that key and value |
| `TomlLines.UncleanPair` | engine/cartograph/src/cartograph/config.py:306-310 | a written text with a control character other than tab gives a line that does not read |
| `TomlRoundTrip.CleanReads` | engine/cartograph/src/cartograph/config.py:294-315 | with bare names and clean texts, reading what was written gives back everything the writer keeps |
| `TomlRoundTrip.WrittenReadsBack` | engine/cartograph/src/cartograph/config.py:80-100 | what was written reads back as all the writer keeps if and only if every written name is a bare key and every text is clean; an unclean text makes the file unreadable |
| `SettingsKeys.WhereKept` | engine/cartograph/src/cartograph/config.py:46-66 | the section and name every key is kept under |
| `SettingsKeys.PathKeys` | engine/cartograph/src/cartograph/config.py:103-114 | which keys name a path, and of which binary |
| `SettingsKeys.WhatKeysTake` | engine/cartograph/src/cartograph/config.py:148-182 | what each key takes, and why it refuses |
| `SettingsKeys.DefaultsRead` | engine/cartograph/src/cartograph/config.py:31-43 | what every setting reads as while nothing is stored |
| `SettingsKeys.LoadedReads` | engine/cartograph/src/cartograph/config.py:80-100 | what a loaded file says of a place: its own value, or the default where its section has none |
| `SettingsKeys.RegistryReads` | engine/cartograph/src/cartograph/config.py:131-145 | the publish registry reads as cg while it is not stored, or stored as something empty |
| `SettingsKeys.LowerIs` | engine/cartograph/src/cartograph/config.py:171-175 | flags are read without regard to capitals |
| `Texts.StripIs` | engine/cartograph/src/cartograph/config.py:150-154 | stripping takes the blanks off both ends and nothing else |
| `Settings.SettingsFile.Load` | engine/cartograph/src/cartograph/config.py:80-100 | the file's sections laid over the defaults in a loop are exactly the merged configuration; a file that does not read means the defaults |
| `Settings.SettingsFile.GetValue` | engine/cartograph/src/cartograph/config.py:131-145 | the reading of one key in the loaded configuration |
| `Settings.SettingsFile.SetValue` | engine/cartograph/src/cartograph/config.py:148-187 | the file after a call is the text written for the changed configuration, or the old file when the call is refused |
| `SettingsLaws.SlotInjective` | engine/cartograph/src/cartograph/config.py:46-66 | no two keys, paths included, are kept in the same place |
| `SettingsLaws.Accepts` | engine/cartograph/src/cartograph/config.py:148-182 | a call is accepted exactly when it has a value to store and no loose value stands where its table belongs |
| `SettingsLaws.SavedLoads` | engine/cartograph/src/cartograph/config.py:148-187 | after an accepted call the file means the changed configuration, less loose values and nested tables, if and only if the key's name is a bare key, the value is clean and every unclean text of the file is the one overwritten; otherwise, with a bare name, every setting is reset to its default |
| `SettingsLaws.SetThenGet` | engine/cartograph/src/cartograph/config.py:131-187 | a stored setting reads back as stored (an empty publish registry as cg) and every other key reads as what survives of it |
| `SettingsLaws.PlainSurvives` | engine/cartograph/src/cartograph/config.py:294-315 | a setting that the file holds as a plain value, or not at all, survives unchanged |
| `SettingsLaws.SettledWhole` | engine/cartograph/src/cartograph/config.py:294-315 | writing and loading once loses what there is to lose; doing it again changes nothing |
| `SettingsLaws.PathReadsBack` | engine/cartograph/src/cartograph/config.py:103-161 | a path override reads back if and only if no loose value is called paths, the binary's name is a bare key, and neither the path nor another text of the file has a control character |
| `SettingsLaws.UncleanIsLost` | engine/cartograph/src/cartograph/config.py:148-187 | when the file holds a text with a control character, read from an escape, in another place than the one overwritten, an accepted call loses the whole file |
| `SettingsLaws.RunKeepsSettings` | engine/cartograph/src/cartograph/config.py:80-187 | over every run of calls with bare names and clean values on a file of clean texts, the file means what settings held in memory would be |
| `SettingsLaws.RunReadsLast` | engine/cartograph/src/cartograph/config.py:131-187 | after such a run every key reads as its last accepted call left it, else as what survives of the start |
| `PackSizing.Size` | engine/mizpah/fixtures/drone.py:47-60 | the loop returns the least parallel count whose flight time leaves the reserve over once the required time is flown, with the mass, power, energy and minutes at that count |
| `PackSizing.SizeableIff` | engine/mizpah/fixtures/drone.py:47-60 | some count meets the requirement, so the loop ends, if and only if a string's energy in watt-minutes exceeds the required minutes times its own hover power |
| `PackSizing.MinutesGrow` | engine/mizpah/fixtures/drone.py:51-56 | flight time strictly increases with the parallel count |
| `PackSizing.MassCostsTime` | engine/mizpah/fixtures/drone.py:127-129 | adding mass to a sized pack strictly lowers flight time |
| `PackSizing.RecheckIff` | engine/mizpah/fixtures/drone.py:127-129 | the re-check still passes if and only if the components' hover energy fits in the slack of the sized pack |
| `PackSizing.Lightest` | engine/mizpah/fixtures/drone.py:125-126 | the lightest part rated high enough, the first of equals, or none exactly when no part is rated high enough |
| `PackSizing.Select` | engine/mizpah/fixtures/drone.py:124-129 | the motor is the first of the lightest four of which lift half as much again as the sized mass, the ESC the first of the lightest four of which carry twice the power, and the verdict says whether the reserve is still left at their mass |
| `Decimals.DecimalReads` | engine/casebook/casebook/cases.py:35-38 | the number written into an id reads back, without a leading zero |
| `Casebook.Slug` | engine/casebook/casebook/cases.py:28-38 | the loop ends with a fresh id: the base itself, or the base with the least free number from 2 on |
| `Casebook.Problems` | engine/casebook/casebook/cases.py:52-85 | exactly the complaints that are due are listed, and none if and only if the case is fit for the store |
| `Casebook.Book.Similar` | engine/casebook/casebook/ops.py:71-84 | the at most three stored cases whose diagnosis shares at least 0.4 of the content words, largest share first and by file name among equals; no other look-alike ranks before one shown |
| `Casebook.Book.AllSimilar` | engine/casebook/casebook/ops.py:71-84 | exactly the look-alikes, ranked |
| `Casebook.AlikeMeans` | engine/casebook/casebook/ops.py:71-84 | alike means that of five words either has they share at least two; it goes both ways |
| `Ordering.BelowMeans` | engine/casebook/casebook/ops.py:71-84 | names sort by their first difference, a prefix first |
| `Casebook.TotalStored` | engine/casebook/casebook/ops.py:96-117 | storing a case changes the number of episodes by exactly the difference of its list |
| `Casebook.RewrittenStaysSound` | engine/casebook/casebook/ops.py:92-104 | joining an episode keeps every case fit, and every case filed without saying so unlike all filed before it |
| `Casebook.FiledStaysSound` | engine/casebook/casebook/ops.py:105-117 | filing a case keeps that too |
| `Casebook.Book.Add` | engine/casebook/casebook/ops.py:87-117 | every outcome exactly when it happens and the whole store after it: a joined case has the new episode last and behind its own touches those it lacked, a new one is worded as the call is under a fresh id, a refused call changes nothing and lists exactly what is due; the store's invariant holds in every reachable store |
| `Counterexamples.AddedAtALink` | engine/playbook/playbook/ops.py:1197-1213 | a step added in a walk at a step that inlines a procedure: the walk no longer shows the flattened method |
| `Counterexamples.EditedWhenClosed` | engine/playbook/playbook/ops.py:1181-1194 | a closed box whose step's text is edited has no reason left |
| `Counterexamples.TextTakenForReason` | engine/playbook/playbook/ops.py:1158-1160 | a ticked box is read with its step's text for a reason, not with the tick's words |
| `Counterexamples.WithoutSteps` | engine/playbook/playbook/ops.py:928-940 | a sound library whose one procedure has no steps: its method is empty and no walk of it can close |
| `Counterexamples.ServedElsewhere` | engine/cartograph/src/cartograph/installer.py:112-295 | one pin of a leaf that only a registry has, by now at another version: the install succeeds and the blueprint is broken |
| `Counterexamples.NotBroughtBack` | engine/cartograph/src/cartograph/blueprint_install.py:326-345 | a failed install leaves a leaf at the registry's version instead of the one before |
| `Counterexamples.PrefixedMoves` | engine/cartograph/src/cartograph/engine.py:223-251 | a pin of a leaf that stands under a prefixed id takes it away from there |
| `Counterexamples.PrefixedIsOrphan` | engine/cartograph/src/cartograph/blueprint_status.py:79-125 | a leaf pinned and installed by a prefixed id is reported as an orphan by its bare id |
| `Counterexamples.PinnedTwice` | engine/cartograph/src/cartograph/blueprint_install.py:80-112 | two pins of a leaf installed at a third version: the cascade goes through and the first pin does not hold |
| `Counterexamples.PinnedTwiceAbsent` | engine/cartograph/src/cartograph/blueprint_install.py:80-112 | two pins of a leaf that is not installed: the cascade cannot go through |
| `Counterexamples.ChangesNotSeen` | engine/cartograph/src/cartograph/checkin.py:319-355 | a changed file beside the hashed folders and a renamed one inside are refused as identical |
| `Counterexamples.DroppedFolderStays` | engine/cartograph/src/cartograph/blueprint_checkin.py:236-255 | a copy without its old python folder: the library keeps it |
| `Counterexamples.BumpedForNothing` | engine/cartograph/src/cartograph/checkin.py:319-355 | an untouched copy with src/build/ in it is accepted again |
| `Counterexamples.HistoryFolderLost` | engine/cartograph/src/cartograph/checkin.py:439-447 | src/history/ is released, is missing from the archive and from what is restored |
| `Counterexamples.NestedFolderDropped` | engine/cartograph/src/cartograph/blueprint_checkin.py:237-240 | a blueprint's src/cg/ does not reach the library |
| `Counterexamples.EpochLost` | engine/cartograph/src/cartograph/checkin.py:41-60 | the bump of 1!2.0.0 is 2.0.1, below it |
| `Counterexamples.EmptyRegistry` | engine/cartograph/src/cartograph/blueprints.py:43-115 | -bp-a-py parses and composes to bp-a-py |
| `Counterexamples.OneLineFeedForgetsAll` | engine/cartograph/src/cartograph/config.py:148-187 | the cloud switched off, then a registry of one line feed: the cloud is on again |
| `Counterexamples.EscapeForgetsAll` | engine/cartograph/src/cartograph/config.py:148-187 | a file with a line feed escape, then any other setting stored: all settings are the defaults |
| `Counterexamples.DottedPathLost` | engine/cartograph/src/cartograph/config.py:103-161 | the override of a binary a.b does not read back |
| `Counterexamples.NeverEnough` | engine/mizpah/fixtures/drone.py:47-60 | a specification that no parallel count meets |

## Left out

Weaker than the source, by name:

- PackSizing.Size: asks for a positive margin, because without one the source's loop runs forever and a Dafny method has to end; `PackSizing.SizeableIff` says exactly when that is.
- TomlRoundTrip.WrittenReadsBack: the reader it is about knows no quoted keys, so a written line that happens to start with a quote counts as one that does not read.
- SettingsLaws.PathReadsBack: the same holds for a binary whose name contains quote characters.
- SettingsLaws.RunReadsLast: starts from a file of clean texts and takes calls with bare names and clean values; for any other single call `SettingsLaws.SavedLoads` says what the file means afterwards.
- ViewCommutes.EditingCommutes: is about commands that set no link; an added step with a link is covered by `WalkView.RunKeepsView` and `WalkView.RunKeepsReasons` only.
- BlueprintStatus.InstalledIsHealthy: asks that no pinned leaf is found in the place of another id; `Cascade.Project.InstallBlueprint` and `BlueprintStatus.Status` hold without that.
- CascadeLaws.RollbackRestores: asks the same, as do the other laws there; `Counterexamples.PrefixedMoves` shows why.
- BlueprintStatus.OrphansShrink: asks that, before the install, every leaf stands under the id its manifest gives, and that no leaf is pinned twice.
- Releases.Entry.CheckinBlueprint: where a folder of the copy would take the place of a file, the source stops half-way with an error; here nothing has changed then.
- Casebook.Problems: leaves out the complaints about values of the wrong JSON type other than touches, which the types here rule out.
- Releases.RunKeepsOrder: is about a library baseline and versions without an epoch; a cloud baseline below the library's head, or an epoch, breaks the order.

Not part of the model:

- Files, locks, temporary directories and atomic replacement: each command is one update of the state.
- Documents that cannot be read, and ids that differ from their file names.
- Stripping of titles and texts (taken as stripped), step ids, tags, descriptions and the rest of the document schema.
- Finding a twin of a new procedure, refused skip wording, what a plan file's text covers, scan findings: given as parameters.
- Numbers given twice in one tick of a nested walk: a tick names a set of boxes. MD5 is taken as telling different bytes apart, and a folder's entries as walked in one order wherever it is copied.
- Full-text search, usage records and the payloads of answers.
- Other open walks of a procedure that is edited through one walk; blank lines of a walk file; texts, titles, notes and reasons of several lines, whose later lines may read as lines of the file's own; the wording of the notes about links; file-name patterns that match the walks of another procedure.
- Widgets called by a method (`walk_widgets`) and the counts per procedure in a reach report.
- A leaf operation that stops half-way; ids with underscores or an owner (`@owner/id`), so that no two ids share a directory; directories under cg/ without a manifest; the install counts of leaves; the files of an installed leaf, so that local changes to one that is overridden and brought back go unmentioned; a registry that changes during one command.
- Cloud baselines, reviews, sidecar files in a release, symbolic links, library notes, time stamps; how a version text is read into its number, epoch and rank; the wording of reasons.
- In TOML: floats, dates, arrays, inline and dotted table headers, quoted keys, multi-line and literal strings, `\u` escapes, underscores in numbers, line ends other than a line feed.
- Settings: the listing of all settings and its descriptions; letters outside ASCII in flags.
- Lower-casing of the language when an id is composed from parts.
- Rounding: sizing is over the reals. The catalogue of parts and its cost figures are parameters or absent.
- How the words of a text, the wording of an id and the episode-specific pieces of a text are found: function parameters, the words taken not to depend on blanks around the text.
- `python_dir_name`, the blueprint resolver and the domains written into a manifest: the installer is given the blueprint's pins. Which ids carry a registry's prefix, what each registry serves, and which names are a language's build artifacts are parameters.
