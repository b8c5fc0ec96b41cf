# Britney: a verified model

Britney decides which Debian packages may move from a source suite into a target suite without making
anything uninstallable there.  This project models the parts of it that decide: the installability
tester with its caches, the builder that feeds it, the engine that changes the target suite and can
take changes back, the recheck of what a change affects, the scheduler, the greedy upgrade run with its
final comparison, and the invalidation of excuses.  Where the program updates objects in place the model
does too; each such method is proved against functions and predicates about which the properties are
then proved.

Everything rests on one definition (module `Universes`).  An *install set* of a suite is a set of
packages of the suite in which every dependency clause of every member has a member, and no member
conflicts with another (sections 7.2, 7.3 and 7.4 of the Debian Policy Manual).  A package is
*installable* when some install set holds it together with the essential packages of its architecture.
Python sets have no order, so every loop over one picks its next element nondeterministically, and all
results hold for every order.

## What is proved

**The tester** (`Universes`, `Search`, `SearchRuns`, `SeparatedSuites`, `Caches`,
`InstallabilityTesters`, `TesterRuns`).  A negative answer is always right: propagation, equivalence
reduction, given-up options, the untested last option and the pseudo-essential packages never rule out a
package that an install set holds.  The argument follows one install set that is closed under equivalence
through the search.  The search returns a record of its moves (`SearchRuns.Run`), each entry of which is a
step that the code may take, with the shortcuts on the way to the verdict.  Without essential packages a
positive answer comes with a set that is closed under dependencies, and that set is an install set exactly
when none of those shortcuts took an option whose conflicts the selection met.  No shortcut does so in a
suite whose alternatives (packages that share a clause with another one of the suite) have no conflicts in
the suite, so there every answer is exact.  `ShortcutCounterexample` gives a universe, as the builder makes
it, and a whole search in it that answers "yes" for a package that is not installable.  The three caches stay
right over every sequence of calls that removes nothing that follows from the essential packages: each "no"
is right, each "yes" is right as long as no search took a shortcut past a conflict, and a query whose own
search did has selected a set with a conflict.  With essential packages, whatever a search answers "yes" from
holds each installable essential package of the architecture, and none of these conflicts with the package
asked about; an essential package that is not installable makes the whole architecture uninstallable
(`Caches.AllOrNothing`).  The mutual recursion terminates.

**The builder** (`Builder`).  What `build` returns has the same install sets as the declarations, and it
has the shape (`WellFormed`) that the tester and the engine rely on: conflicts are symmetric, reverse
dependencies invert dependencies among unbroken packages, and equivalent packages are interchangeable.  What is
installable according to declarations and essential packages is installable in the built universe.

**The engine** (`Transactions`, `Changes`, `Affected`, `Migration`, `Nuninsts`, `ItemMigration`).
Applying an item changes sources, binaries, provides and the tester as its groups say (`Changed`, stated source
by source and entry by entry) and logs how to get back.  A batch is accepted exactly if no rechecked
architecture regresses, save break architectures that are new or any of them for a source item.  A rollback always does what
the function `RolledBack` says, and that restores the start exactly when nothing was removed or replaced
that was not there at the start; `AddedThenRemoved` shows a run that is not restored.  The engine goes on
working after such a rollback (`Valid`), only its tables may then be out of step (`Intact`).  Rechecking only
the affected packages gives the table of uninstallable packages that a compilation from scratch gives on all
names but those whose addition was itself replaced by an equivalent in the batch (`ReplacedKeys`).  On these
the table is right exactly when the last equivalent has the status of what the suite held under the name
before the batch; `StaleTable` runs the engine on a batch that it accepts, whatever the test answers, with a
table that is wrong.  The counts per architecture agree exactly when besides no uninstallable package that
escaped the recheck changed its arch:all status.

**The scheduler** (`Graphs`, `StronglyConnectedComponents`, `InstallabilitySolver`).  `compute_scc`
returns each strongly connected component once, although it lowers numbers in place of an on-stack test.
`solve_groups` makes one batch of each component, strands nothing, and puts a batch only after those that
it must wait for.

**The upgrade run** (`UpgradeLoop`, `RunRounds`, `UpgradeRuns`, `FailingRuns`).  `iter_packages` ends whatever the test
of installability answers, also if its answers change from one attempt to the next.  It returns the attempts
it made (`History`): the suite, the table, the logs, the accepted items and the queued cruft are what these
make of the start, and a component was rejected exactly when its groups could not be computed or the recheck
found an architecture worse than is tolerated (`Judged`, `Determined`).  It also returns its rounds (`Chronicle`): each schedules
the strongly connected components of what is to be tried again in an order that respects the constraints, and
each attempt is on the next component, on a single item of the component just rejected, or on queued cruft.  So
items that depend on each other are tried together before any of them is tried alone, and whatever must go
before an item has been tried first (module `RunRounds`).  With all items under names of their own, every movable and
every queued item ends exactly once among the accepted or the returned items; without, none is counted twice.
If no rejected attempt left a trace, the outcome is a local maximum: each returned item fails on the suite and
the table that the run ends with.  No architecture outside the break set gets worse, and the table of an
architecture that no accepted item has to do with does not change.  If no attempt took back an addition of
its own, the engine stays intact and the table right.

A main run passes its final comparison whenever it has accepted an item that is not of a break architecture,
or none of a new architecture (`SafeSelection`).  This is exact: for every other selection of items under
names of their own, `FailMainRun` is a main run that accepts just these items and fails, from a right table
and with a right test.  A hint runs the same loop over what is to follow its items, and it is
judged after that; one that fails is rolled back, and the suite is as before exactly when its log is reversible.

**Excuses and policies** (`Excuses`, `SmoothUpdates`, `ImplicitDependencies`, `Autopkgtest`).
`invalidate_excuses` computes the least set of excuses that has to go, whatever the order; the two checks
after it pass exactly when no forced excuse has an impossible dependency.  The second phase of the smooth
updates is a least fixpoint, the test for implicit dependencies raises no false alarm, and the recorded
test result does not depend on the order of arrival.

## Where the code and its comments differ

- The comment on the search says that `musts` and `never` stay disjoint (britney2/installability/tester.py:258).
  They do not: an option may bring back a package that was given up.  The model keeps the code's test
  order, and the record of a search tells whether a shortcut was taken past a conflict.
- The loop that is to expand the broken packages (britney2/installability/builder.py:267) finds nothing,
  because it starts from packages that it skips.  `Builder.ExpandBroken` proves this; the built universe
  has the right install sets all the same.
- `rollback` removes a binary only under the key it was added with and only if the key is still taken
  (britney2/transaction.py:92-95), so a binary that was added and removed in one transaction comes back.

## Model

| member | source | states |
|---|---|---|
| Universes.EquivalentImage | britney2/installability/tester.py:481-510 | exchanging any number of members of an install set for equivalents, and adding or dropping equivalents, gives an install set |
| Universes.ExchangeKeepsInstallSet | britney2/migration.py:12-25 | swapping members of an install set for equivalents at once gives an install set of any suite that holds the result |
| Universes.SaturateKeepsInstallSet | britney2/installability/tester.py:444-462 | an install set with all equivalents of its members that are in the suite is an install set |
| Universes.EquivalentInstallable | britney2/installability/tester.py:82-91 | a package of the suite is installable if an equivalent is |
| Universes.EquivalentsAgree | britney2/installability/universe.py:95-116 | equivalent packages of one suite are installable together or not at all |
| Search.ClauseStepSupports | britney2/installability/tester.py:436-513 | dealing with one clause, by adding its only candidate or deferring the reduced choice, keeps every supporting install set, and what is added belongs to it |
| Search.ExaminedConflicts | britney2/installability/tester.py:436-452 | recording the conflicts of a package keeps what was processed and leaves the processed packages free of conflicts |
| Search.PositionJoined | britney2/installability/tester.py:357-402 | joining an option examined on its own keeps the invariant of the search, and cleanness exactly if the selection meets none of the option's conflicts |
| Search.NeverGrows | britney2/installability/tester.py:404-409 | giving up on a package outside the install set keeps its support |
| Search.LastOption | britney2/installability/tester.py:411-420 | when all other options are excluded, a supporting install set holds the untested last one |
| Search.PositionFinal | britney2/installability/tester.py:319-349 | with nothing left to examine or choose, the selection is closed under dependencies, and is an install set exactly if the run was clean |
| InstallabilityTesters.InstallabilityTester.constructor | britney2/installability/tester.py:25-63 | the caches of a new tester are right for its suite, and the essential closure follows from the essential packages |
| InstallabilityTesters.InstallabilityTester.ReduceEquivalent | britney2/installability/tester.py:481-510 | the reduced candidates are candidates, and every candidate has an equivalent among them |
| InstallabilityTesters.InstallabilityTester.CheckClause | britney2/installability/tester.py:453-513 | fails only if no candidate remains; otherwise the only reduced candidate is added, or the reduced choice is deferred, and it covers all candidates |
| InstallabilityTesters.InstallabilityTester.CheckLoop | britney2/installability/tester.py:422-513 | fails only if no install set supports the position; otherwise it keeps every support, works off the list, and all examined packages are met or deferred and in no conflict |
| InstallabilityTesters.InstallabilityTester.PruneChoices | britney2/installability/tester.py:277-317 | what remains of the choices is what is neither met nor excluded; it fails on no supported position, and single options become part of the selection |
| InstallabilityTesters.InstallabilityTester.ExamineOption | britney2/installability/tester.py:357-402 | an option that fails or meets its own conflicts is in no supporting install set; a shortcut keeps support, an accepted option keeps the support that holds it |
| InstallabilityTesters.InstallabilityTester.TryOptions | britney2/installability/tester.py:357-409 | the options but the last are tried one after the other until one settles the choice or the question; if none does, a supporting install set holds no option but the last |
| InstallabilityTesters.InstallabilityTester.TryOption | britney2/installability/tester.py:357-409 | the record of the option is a move of the search; a no-go or given-up option is in no supporting install set, a commit keeps the support, a recursive success answers the question, and cleanness is lost exactly by a shortcut whose conflicts the selection meets |
| InstallabilityTesters.InstallabilityTester.ResolveChoices | britney2/installability/tester.py:351-420 | solves the question or keeps support and invariant; if it goes on, the selection has strictly grown; the choices it took up are on record |
| InstallabilityTesters.InstallabilityTester.Pass | britney2/installability/tester.py:319-420 | one pass of examining, pruning and guessing ends the search or goes on, with more selected or nothing left to examine, keeping every support |
| InstallabilityTesters.InstallabilityTester.CheckFrom | britney2/installability/tester.py:319-349 | a supported position never gets a negative verdict; a positive one has a selection that is closed, cached, and an install set exactly if no shortcut on record was taken past a conflict; the record leads from the position to the verdict |
| InstallabilityTesters.InstallabilityTester.GetMinPseudoEssential | britney2/installability/tester.py:515-556 | the cached or computed start holds every installable essential package of the architecture and what follows from them, with all conflicts of these; start, conflicts and choices hold in every install set with the essential packages of the suite |
| InstallabilityTesters.InstallabilityTester.CheckInst | britney2/installability/tester.py:207-349 | an installable package never gets a negative verdict, with or without essential packages; at most one search is made, from the pseudo-essential packages; what a positive verdict selects holds each installable essential package of the architecture, none of them in conflict with the package; without essential packages it is an install set exactly if that search took no shortcut past a conflict, and none does in a separated suite; the caches stay right |
| SeparatedSuites.FairTidy | britney2/installability/tester.py:379-388 | in a suite whose alternatives have no conflicts, a shortcut taken from a selection without conflicts meets none |
| SeparatedSuites.SeparatedTidy | britney2/installability/tester.py:258-420 | in such a suite no shortcut on the way to a positive verdict is taken past a conflict |
| InstallabilityTesters.InstallabilityTester.IsInstallable | britney2/installability/tester.py:180-205 | a KeyError exactly for unknown packages; a no is right; a search that answers yes has selected each installable essential package of the architecture, none in conflict with the package; a yes, cached or not, is right without essential packages as long as no search took a shortcut past a conflict; a query whose search did answers yes for a selection with a conflict |
| InstallabilityTesters.InstallabilityTester.AddBinary | britney2/installability/tester.py:121-149 | all three caches are right for the suite with the package; a KeyError for an unknown one |
| InstallabilityTesters.InstallabilityTester.RemoveBinary | britney2/installability/tester.py:151-178 | the caches are right for the suite without the package unless it follows from the essential packages |
| InstallabilityTesters.InstallabilityTester.ComputeInstallability | britney2/installability/tester.py:65-91 | every installable package is cached afterwards, and without essential packages only installable ones are unless a recorded search took a shortcut past a conflict |
| InstallabilityTesters.InstallabilityTester.Decide | britney2/installability/tester.py:71-91 | one package is decided together with its equivalents in the suite, by at most one search |
| Caches.AddNewCoherent | britney2/installability/tester.py:136-148 | putting the known-broken packages back and dropping the cached installable ones keeps the caches right when a package arrives |
| Caches.RemoveCoherent | britney2/installability/tester.py:155-177 | the condition under which the cached installable packages are kept on removal is enough |
| Caches.CacheInstSearched | britney2/installability/tester.py:342-344 | what the search drops from the suite is in no cached witness, and what it adds is a whole install set |
| Caches.CacheInstEquivalents | britney2/installability/tester.py:82-88 | equivalents of a cached package that are in the suite may be cached |
| Caches.AllOrNothing | britney2/installability/tester.py:207-247 | if an essential package of the suite is not installable, no package of its architecture is |
| Caches.PseudoEssentialStable | britney2/installability/tester.py:136-149 | the cached start, conflicts and choices depend on the suite only within what follows from the essential packages |
| TesterRuns.Run | britney2/installability/tester.py:65-205 | any sequence of calls that removes nothing from the essential closure: every answer is judged on the replayed suite, with the searches of each call on record; a yes is right until a recorded search takes a shortcut past a conflict, and the answer to a query whose search does has a selection with a conflict |
| TesterRuns.SeparatedRunTidy | britney2/installability/tester.py:65-205 | if all suites on the way are separated, every answer of the run is exactly right |
| ShortcutCounterexample.SearchForTOk | britney2/installability/tester.py:258-420 | the search of the example, from the package alone to its verdict, is one that the code may make, with one shortcut on the way |
| ShortcutCounterexample.WrongYesExists | britney2/installability/tester.py:364-388 | there is a well-formed universe, made by the builder, and a search of the tester for a package that is not installable, with a positive verdict for a selection that has a conflict |
| ShortcutCounterexample.NotInstallable | britney2/installability/tester.py:258-261 | no install set of the example holds the package asked about |
| Builder.BuildPreservesInstallSets | britney2/installability/builder.py:252-318 | a set is an install set of the declared relations exactly when it is one of the built universe |
| Builder.BuildPreservesInstallability | britney2/installability/builder.py:232-318 | a package is installable in the built universe exactly when declarations and essential packages say so |
| Builder.BuildWellFormed | britney2/installability/builder.py:232-318 | the built universe has symmetric conflicts, inverse reverse dependencies, nulled broken packages and sound equivalence classes |
| Builder.BuiltReverseInverts | britney2/installability/builder.py:171-196 | reverse dependencies are exactly the inverse of dependencies among unbroken packages |
| Builder.BuiltConflictsSymmetric | britney2/installability/builder.py:252-263 | conflicts have no direction once the reverse ones are merged |
| Builder.BuiltEquivalencesSound | britney2/installability/builder.py:336-407 | members of a class have the same relations, and no clause tells them apart |
| Builder.ReverseDepsFromClauses | britney2/installability/builder.py:336-360 | packages with equal reverse clauses have equal reverse dependencies |
| Builder.InstallabilityTesterBuilder.AddBinary | britney2/installability/builder.py:121-158 | a new package is added without relations, a known one only gets its flags |
| Builder.InstallabilityTesterBuilder.SetRelations | britney2/installability/builder.py:160-196 | the reverse table gets exactly the reverse relations of the declaration on top, and stays the exact inverse of all declarations unless the declaration takes relations of an earlier one back |
| Builder.InstallabilityTesterBuilder.Build | britney2/installability/builder.py:232-318 | returns the universe that the declarations describe, or fails exactly when something is referenced that was not added |
| Builder.MergeConflicts | britney2/installability/builder.py:252-263 | every package gets its reverse conflicts; fails exactly when one of them was never added |
| Builder.ExpandBroken | britney2/installability/builder.py:265-285 | no further broken package is ever found |
| Builder.StripBroken | britney2/installability/builder.py:287-307 | exactly the unbroken packages that depend on a broken one lose their relations with broken packages |
| Builder.BuildRelations | britney2/installability/builder.py:320-407 | every package gets its relation, classed packages one in common, and the reported equivalents are those with another class member |
| Transactions.RolledBackRight | britney2/transaction.py:48-120 | undoing a traced log leads back to the start exactly when it is reversible; sources and provides in any case |
| Transactions.Origin | britney2/migration.py:283-349 | a binary in the suite was there at the start of the transaction or was added in it |
| Transactions.KeptAdditionsReversible | britney2/transaction.py:48-120 | a transaction that removes or replaces none of its own additions can be undone exactly |
| Transactions.AddedThenRemoved | britney2/transaction.py:87-108 | from any suite, adding a binary and removing it again gives a log that cannot be undone exactly |
| Transactions.PutBackAll | britney2/transaction.py:100-108 | after the last step all that the start held is back, and the tester holds the start and whatever the log took out, so it is right exactly when that was there at the start |
| Transactions.MigrationTransactionState.constructor | britney2/transaction.py:3-14 | a transaction starts with an empty log at the current suite and blocks its parent |
| Transactions.MigrationTransactionState.AddUndoItem | britney2/transaction.py:16-21 | the log grows by one entry that leads back to the state before |
| Transactions.MigrationTransactionState.Commit | britney2/transaction.py:34-46 | the parent's log is extended by the child's and still traces the parent's suite from its start |
| Transactions.MigrationTransactionState.Rollback | britney2/transaction.py:48-120 | the log is undone as the function `RolledBack` says; if it traces the suite, sources and provides are as at the start, nothing of the start is missing, and the whole state is the start exactly when the log is reversible |
| Transactions.RestoreMap | britney2/transaction.py:77-83 | recorded values are put back and entries that did not exist are deleted |
| Changes.EntryRecords | britney2/migration.py:247-377 | the undo record of an item leads from the suite after it back to the suite before it |
| Changes.AfterChanged | britney2/migration.py:263-371 | the source has the version of the item and loses and gains exactly its binaries, or is gone if removed, and other sources stay; a key has the binary added or the one it had unless removed; an entry of the provides table is there exactly if an added binary provides it, or it was there and no removed one does; the tester knows what was added and not what was removed or replaced |
| Affected.ComputeReverseTree | britney2/utils.py:112-128 | terminates with the least superset that is closed under reverse dependencies |
| Affected.ComputeEqvSet | britney2/migration.py:12-25 | exactly the keys under which a removed binary is replaced by an equivalent |
| Affected.ReverseTreeAffects | britney2/migration.py:279-373 | the reverse tree holds every new binary that replaces no equivalent and everything that depends on what has gone |
| Affected.EarlierRemoved | britney2/migration.py:337-351 | when a binary comes back under a name that the enclosing transaction has removed, all that needed the removed one is affected |
| Affected.StaysInstallable | britney2/migration.py:279-375 | an unaffected binary is still installable if its predecessor was |
| Affected.WasInstallable | britney2/migration.py:279-375 | an unaffected binary that is installable was so before |
| Affected.UnaffectedAgree | britney2/migration.py:279-375 | an unaffected binary goes back to an equivalent of the same key and the same installability |
| Migration.MigrationManager.StartTransaction | britney2/migration.py:461-473 | pushes a transaction with an empty log; the logs of the others are unchanged |
| Migration.MigrationManager.CommitTransaction | britney2/migration.py:461-473 | pops the innermost transaction and appends its log to that of its parent |
| Migration.MigrationManager.RollbackTransaction | britney2/migration.py:461-473 | pops the innermost transaction, leaves the other logs alone, undoes the log and restores the suite of an intact engine exactly when the log is reversible |
| Migration.MigrationManager.RemoveBinaries | britney2/migration.py:279-312 | binaries, provides, source lists, undo record and affected set once all removals have been made |
| Migration.EntriesPresent | britney2/migration.py:263-312 | in a sound suite every entry of the provides table that a removal takes out is there |
| Migration.MigrationManager.AddBinaries | britney2/migration.py:314-371 | the same once all additions have been made, replaced binaries of other sources and those removed earlier in the enclosing transaction included |
| Migration.MigrationManager.ChangeSuite | britney2/migration.py:232-379 | the suite is as the change says, source by source, binary by binary and entry by entry; the record is exact, and the affected packages are the reverse tree of the directly affected ones |
| Migration.MigrationManager.ApplyItem | britney2/migration.py:232-379 | the same, with the record appended to the innermost log and to no other |
| Nuninsts.CompileNuninst | britney2/utils.py:733-764 | the table says of every package whether the test fails for it and whether it counts; with a right test that is whether it is uninstallable |
| Nuninsts.CloneNuninst | britney2/utils.py:394-416 | a copy in which the given architectures have forgotten the names that left the suite |
| Nuninsts.TestInstallability | britney2/utils.py:419-448 | the name is in both records exactly if uninstallable, and the change is the difference in number |
| Nuninsts.CheckInstallability | britney2/utils.py:451-470 | of the listed packages exactly those that are in the suite in that version are tested; other names and architectures keep their record |
| ItemMigration.KeptBack | britney2/migration.py:381-415 | over a whole batch an unaffected binary goes back to one of the same key and the same installability |
| ItemMigration.OthersKept | britney2/migration.py:381-415 | only under names whose addition was replaced by an equivalent in the batch can an unchecked binary differ in status from what was there before |
| ItemMigration.UpdatedAgrees | britney2/utils.py:451-470 | a right count stays right exactly when no unchecked uninstallable binary changed its arch:all status |
| ItemMigration.UntouchedAgrees | britney2/migration.py:381-415 | on an architecture that no item touches the old table is still right |
| ItemMigration.ApplyItems | britney2/migration.py:381-415 | the suite goes through the states of the items as far as their groups can be computed, the log records them, and the affected set is what each of them affects |
| ItemMigration.MigrateItems | britney2/migration.py:417-459 | a batch raises exactly when some groups cannot be computed; otherwise it is accepted exactly if in the rechecked table no architecture has more uninstallable packages beyond the allowed ones or a new one that must stay installable, save the break architectures that may; with a reliable test the table of an accepted one equals a compilation from scratch exactly when the names of replaced additions kept their status |
| ItemMigration.Recheck | britney2/migration.py:427-455 | every affected architecture is rechecked; the batch is accepted exactly if none of them regresses, save those that may; other architectures keep their table |
| ItemMigration.WorseExactly | britney2/migration.py:28-36 | worse means a larger count beyond the allowed packages or a package that must stay installable and is newly uninstallable |
| ItemMigration.RecheckedTable | britney2/migration.py:417-455 | there is a rechecked table for every batch, accepted or not |
| ItemMigration.TableAgrees | britney.py:1154-1185 | the updated table is the one that a compilation from scratch would give exactly when the names whose addition was replaced kept their status, and its counts when besides no unchecked uninstallable binary changed its arch:all status |
| StaleTable.WhatIsAffected | britney2/migration.py:279-375 | a binary that replaces an equivalent addition of the same batch is not among the affected packages |
| StaleTable.AcceptStaleTable | britney2/migration.py:417-459 | the engine accepts a batch of two items whatever the test answers, from a right table to a wrong one |
| StaleTable.StaleTableExists | britney2/migration.py:279-375 | there is a universe, made by the builder, for that batch, and its first addition is a replaced one |
| StronglyConnectedComponents.ComputeScc | britney2/installability/solver.py:33-137 | every node in exactly one list, and the lists are exactly the strongly connected components |
| StronglyConnectedComponents.HandleSucc | britney2/installability/solver.py:59-81 | pushes an unseen successor or has taken over the numbers of all of them, keeping the invariant of the search |
| StronglyConnectedComponents.Search | britney2/installability/solver.py:97-135 | works the stack off and keeps the invariant |
| StronglyConnectedComponents.ComponentIsClass | britney2/installability/solver.py:118-131 | what is cut from the node stack is a whole strongly connected component |
| StronglyConnectedComponents.IsolatedIsComponent | britney2/installability/solver.py:46-57 | a node without predecessors or without successors is a component of its own |
| InstallabilitySolver.ApplyOrder | britney2/installability/solver.py:140-156 | adds one edge at both of its ends and nothing else; self-relations are ignored |
| InstallabilitySolver.ComputeGroupOrder | britney2/installability/solver.py:227-267 | the graph of exactly the requests between different items, with edges inverse to each other |
| InstallabilitySolver.MergeItemsIntoComponents | britney2/installability/solver.py:269-311 | the graph of the component heads with exactly the edges that cross components, inverse to each other |
| InstallabilitySolver.MirrorEdges | britney2/installability/solver.py:303-309 | the last pass changes nothing because no inverse edge is missing |
| InstallabilitySolver.CondensedAcyclic | britney2/installability/solver.py:269-311 | the merged order has no cycle |
| InstallabilitySolver.NothingStranded | britney2/installability/solver.py:369-381 | when the queue is empty all nodes have been emitted |
| InstallabilitySolver.Linearise | britney2/installability/solver.py:351-381 | emits every node once and each after all those it must wait for, and ends |
| InstallabilitySolver.SolveGroups | britney2/installability/solver.py:313-386 | every item exactly once, one batch for each strongly connected component, and no batch before one that it depends on, directly or not |
| UpgradeLoop.Try | britney.py:902-973 | a component is accepted exactly if its groups can be computed and the recheck finds no architecture worse than is tolerated; accepted it leaves the rechecked table, with untouched architectures as they were; rejected it leaves table and logs as they were and the suite as rolled back, which for an intact engine is the suite before exactly when the log is reversible |
| UpgradeLoop.Determined | britney.py:902-973 | the verdict on a component and where the run stands after it depend on nothing but where it stood before and what the tester answers |
| UpgradeLoop.JudgedExactly | britney2/migration.py:417-455 | a component whose groups can be computed is accepted exactly if no rechecked architecture regresses, save those that may |
| UpgradeLoop.KeptAdditionsHarmless | britney2/migration.py:417-459 | an attempt whose log keeps its own additions is harmless: accepted it keeps the table right, rejected it leaves no trace |
| UpgradeLoop.ReadGroups | britney.py:873-881 | exactly the items whose groups can be computed stay, in order |
| UpgradeLoop.Schedule | britney.py:891-896 | the worklist read backwards is the list of the strongly connected components of the ordering, in an order that respects it, with each item once |
| UpgradeLoop.ScheduleBalanced | britney.py:891-896 | scheduling counts no item twice and, with all items under names of their own, loses none |
| UpgradeLoop.AddCruft | britney.py:930-939 | exactly the removals of the smooth updates whose groups exist are appended to the worklist, one component each |
| UpgradeLoop.Settle | britney.py:909-979 | the exact worklist, put-aside and rescheduled lists and selection after a component was accepted, split into singles or put aside |
| UpgradeLoop.TryNext | britney.py:898-979 | one attempt is made and recorded; items stay balanced, no architecture that counts gets worse, and less is left to do |
| UpgradeLoop.IterPackages | britney.py:853-990 | ends whatever the test answers; rounds, suite, table, logs, accepted items and queued cruft are those of the recorded schedules and attempts, each rejected for a recorded reason; the items are balanced; what is returned was tried alone in vain after the last success; no architecture outside the break set gets worse; after harmless attempts the table is right |
| RunRounds.InOrder | britney.py:890-979 | each attempt of a round is on the next batch, on a single item of the batch just rejected or on queued cruft, and all batches before have been tried |
| RunRounds.RoundComplete | britney.py:890-979 | a round that is over has tried every batch as a whole |
| RunRounds.TriedInOrder | britney.py:890-979 | when an item is tried, all that must go before it has been tried with its whole component |
| RunRounds.TriedTogether | britney.py:890-979 | a round that is over has tried the whole strongly connected component of each of its items, before any part of it other than queued cruft |
| RunRounds.RoundAt | britney.py:890-979 | all rounds of a run are made this way, and all but the last are over when the next one starts |
| UpgradeLoop.LocalMaximum | britney.py:898-990 | after attempts without traces each item that the run returns fails, alone, on the suite and the table that the run ends with |
| UpgradeLoop.ExactlyOnce | britney.py:853-990 | in a balanced outcome with all items under names of their own each movable or queued item is accepted or returned exactly once |
| UpgradeRuns.IsNuninstAsGoodGenerous | britney2/utils.py:358-391 | true exactly if the total excess has not grown and no keep-installable package is new on an architecture that is compared |
| UpgradeRuns.DiffCounts | britney2/utils.py:374-382 | the difference is that of the numbers of uninstallable packages beyond the allowed ones, on all compared architectures together |
| UpgradeRuns.OneArchitecture | britney2/utils.py:358-391 | on one architecture the final comparison and the test for a worse architecture say the same |
| UpgradeRuns.KeepInstallable | britney2/utils.py:384-390 | with equal counts a table is rejected for a package that must stay installable and is new in it |
| UpgradeRuns.NeverWorseDiff | britney2/utils.py:358-391 | no architecture worse by itself implies as good as a whole |
| UpgradeRuns.SafeNeverWorse | britney.py:1099-1110 | for a safe selection the architectures that are compared are among those that never got worse or were not touched |
| UpgradeRuns.HistoryUntouched | britney2/utils.py:394-416 | over a run only the tables of the architectures of accepted items change, or all if one of them is a source |
| UpgradeRuns.SafeExactly | britney.py:1031-1148 | what the steps of a run guarantee, untouched architectures included, implies the final comparison exactly for the safe selections |
| UpgradeRuns.UnsafeRegression | britney.py:1099-1110 | for any other selection there are tables that the steps allow and the final comparison rejects |
| UpgradeRuns.Britney.MainRun | britney.py:1031-1148 | passes the final comparison for every safe selection and records its result exactly if it passes; the items are balanced, no architecture that counts got worse, and after harmless attempts the table is right; one that does not pass records nothing |
| FailingRuns.FailMainRun | britney.py:1099-1148 | for every selection of items under names of their own that is not safe there is a main run that accepts exactly these items and fails, from a sound engine and a right table and with a right test |
| FailingRuns.CulpritExists | britney.py:1099-1110 | every selection that is not safe has an item and a package for that run |
| UpgradeRuns.Britney.RunHint | britney.py:992-1152 | the items of the hint, then a run over everything else on the list for a recursive hint and over the removals of cruft otherwise, with the new cruft; one without force succeeds exactly if the result is as good as the start; the list afterwards is what the run left or the old one without what was accepted; a hint that fails changes no bookkeeping and is rolled back, which restores the suite exactly when its log is reversible |
| UpgradeRuns.Britney.TakeCandidates | britney.py:1020-1026 | succeeds exactly if all items of the hint are on the list, and takes just these off |
| Excuses.Excuse.SetPolicyVerdict | britney2/excuse.py:214-220 | no verdict makes a forced excuse invalid, and any other verdict stands as given |
| Excuses.Excuse.AddDependency | britney2/excuse.py:239-266 | one dependency is added, open exactly to the named excuses; without any the excuse is invalid unless forced |
| Excuses.Excuse.InvalidateDependency | britney2/excuse.py:298-307 | one alternative is crossed out everywhere; the excuse stays valid exactly if every dependency has another one or it is forced |
| Excuses.LeastVerdict | britney2/excuse.py:103-105 | the best verdict among the alternatives |
| Excuses.InvalidateExcuses | britney2/utils.py:655-730 | terminates with the least set that holds the initial ones and is closed under having a dependency with no other alternative while not forced |
| Excuses.LeastClosedUnique | britney2/utils.py:655-730 | the outcome does not depend on the order of the worklist |
| Excuses.FindActionableExcuses | britney2/excusefinder.py:575-594 | both checks pass exactly when no forced excuse has an impossible dependency, given entry sets that match the verdicts |
| SmoothUpdates.ExtendSmoothBinaries | britney2/utils.py:842-856 | terminates with the least superset in which every candidate that something kept depends on is kept |
| SmoothUpdates.LeastKeptUnique | britney2/utils.py:842-856 | the result does not depend on the order of the candidates |
| ImplicitDependencies.BreaksInstallability | britney2/policies/policy.py:1628-1675 | true exactly if some clause that the old version satisfies has no alternative left |
| ImplicitDependencies.BreakIsReal | britney2/policies/policy.py:1628-1675 | a package said to break is in no install set of a suite where only the new version has the name |
| ImplicitDependencies.BreaksExactly | britney2/policies/policy.py:1628-1675 | a break is exactly a clause of the old version all of whose alternatives conflict or cannot be there after the upgrade |
| ImplicitDependencies.AlternativeRemains | britney2/policies/policy.py:1628-1675 | without a break each clause that the old version satisfies keeps an alternative without conflict that may stay |
| Autopkgtest.AutopkgtestPolicy.AddTriggerToResults | britney2/policies/autopkgtest.py:969-1001 | the cell holds the better of what it held and the result, other cells are unchanged; a result for an invalid trigger or for an older version than that of a trigger of its own source changes nothing |
| Autopkgtest.AutopkgtestPolicy.AddAll | britney2/policies/autopkgtest.py:969-1001 | after any list of results the cell holds the best of those that count |
| Autopkgtest.BestUnique | britney2/policies/autopkgtest.py:969-1001 | with distinct positive timestamps the best result is unique |
| Autopkgtest.BestMeaning | britney2/policies/autopkgtest.py:979-995 | the record holds the best status with its latest run, or the latest run for the reference |
| Autopkgtest.PassWins | britney2/policies/autopkgtest.py:979-995 | the record is a pass exactly if there is one, neutral exactly if there is a neutral result and no pass, and a failure only without either |
| Autopkgtest.AutopkgtestPolicy.OrderIrrelevant | britney2/policies/autopkgtest.py:969-1001 | permutations of the same results leave the same record |

## Left out

- InstallabilityTesters.InstallabilityTester.CheckInst: whether a positive verdict is right is characterised only without essential packages; with them it is proved that the selection holds them and that they do not conflict with the package, because the code ignores the verdict of its own check of the pseudo-essential packages (britney2/installability/tester.py:531).
- InstallabilityTesters.InstallabilityTester.RemoveBinary: nothing is said about the caches when a package of the essential closure is removed; the code then keeps cached conflicts and broken packages that may be stale.
- InstallabilityTesters.InstallabilityTester.ComputePseudoEssential: taking a package out of the suite that a nested check has already taken out raises a KeyError in the code and is a set difference here.
- Builder.InstallabilityTesterBuilder.SetRelations: after a declaration that takes back relations of an earlier one for the same package the reverse relations are stale in the code; the model records them, but proves nothing about a build from them.
- Migration.MigrationManager.ApplyItem: taking out of the provides table what is not there, which can happen only after a rollback that did not restore the suite, raises a KeyError in the code and does nothing here.
- InstallabilitySolver.ComputeGroupOrder: takes the list of ordering constraints; how they are derived from what items add and remove is not modelled.
- ItemMigration.MigrateItems: the groups of an item (`compute_groups`) and the answers of `is_installable` are parameters, the groups with the promise that they fit the suite and their architecture; the table is compared with a compilation only for a reliable test without essential packages.
- UpgradeLoop.IterPackages: the scheduler knows items by name, so items that share a name are only promised not to be counted twice.
- UpgradeRuns.Britney.MainRun: the reruns for single break architectures, where the break set becomes a joined string, are not modelled.
- SmoothUpdates.ExtendSmoothBinaries: the first phase, which decides by section and hints which binaries may be kept at all, is a parameter.
- Excuses.InvalidateExcuses: which rejection is propagated depends on the order of the worklist; only that it is a rejection is modelled.  Dependency states are values, not objects shared between excuses.
- The provides table is a set per key.  A binary that replaces one of another source leaves the old provides behind, as in the code, so the table may hold more than the binaries provide.
- Loading and writing files, apt_pkg, version comparison, hints and their parsing, most policies, statistics and logging: input, output or branch tables without an effect on what is proved.
