# Sysrepo Engine: a verified model

This project models the parts of the Sysrepo Engine whose correctness is hardest to see from any one
function, and proves what they promise:

- **the module dependency graph** (`DepGraph`, `Reachability`, `ModuleGraph`, `RemovalSpec`,
  `RemovalInvariant`, `RemovalSteps`, `RemovalSweep`, `RemovalRuns`, `ClosureRun`, `DataRun`,
  `RemovalConditions`, `Revisions`, `SchemaLoader`): forward and inverted adjacency lists with their transitive closure, the recursive
  removal of modules with the conditions under which it is sound and the runs that fail without them,
  the latest-revision flag and the search that relies on it, and the loading of schemas over the graph;
- **the Data Manager** (`LockFiles`, `LockState`, `DataManager`, `FastCommit`): module and datastore
  locks, reference counts of schemas, the lock phase and the life of a commit context, and the
  optimistic commit by time stamps;
- **walks over trees by parent and sibling links** (`Arena`, `NacmWalk`, `Subscriptions`,
  `PrivData`): access control with pruning, subscription matching and the filter of a diff list,
  hashes and depths of schema nodes;
- **connections** (`ConnectionManager`, `OutBuffer`, `InBuffer`): the request queue of a session,
  deferred session stop, connection teardown, and the output and input buffers.

Classes hold the state that the source updates in place; their methods are the source's functions,
loops included, and each `Valid()` or `Shape()` predicate is an invariant that every method keeps, so
it holds after every run of calls.  What the outside decides (libyang, the file system, sockets, the
clock, random numbers, the Request Processor) is a parameter: an oracle function, a stream of
outcomes, or a flag.  Every step is atomic, as under the locks that the source takes.

## Findings

Some properties hold only under a condition; the model follows the code and states the condition.

- *Removal, order of dependencies.*  When a dependency is unlinked, all inverted entries for the module
  go but only one forward entry does.  If the dependencies of m lead to x, then to y, then to x again,
  only m needs y and only m and y need x, then m passes x, removes y, and y removes x, which m still
  names: `RemovalRuns.SplitRun` for all such graphs, `RemovalRuns.SplitOrderDangles` for one, up to the
  deletion of x.  `ModuleGraph.MdCtx.RemoveModule` is proved for graphs where no list is split in this
  way.  For the target only modules with a direct user besides it count, which is what a caller can
  see (`RemovalConditions.ContestedMeans`, `RemovalConditions.SoundFromGraph`).  A module that goes with
  another is free of the condition when all it might take with it is held: it imports or includes each
  of them, and whoever may take the module imports or includes it in the same way and does not list
  them (`RemovalInvariant.Plan.HeldBack`).  Then they are still needed, and nothing in its list goes
  (`ModuleGraph.HeldNeeds`); the plain chain of imports is of this kind (`RemovalConditions.ChainIsHeld`).
- *Removal, a closure in between.*  For other modules that go with the target computed users count too,
  because a closure may forget them.  If u takes p with it, p leads to x, then to y, then to x again, only
  p needs y, and u needs x only through the first of the two entries, then p passes x, removes y, the
  closure that ends this forgets u, and p removes x, which it still names: `ClosureRun.ForgetfulRun` for
  all such graphs, `ClosureRun.ForgettingDangles` for one.  A data edge does not hold a module, since it is
  forgotten with the module that introduced it: if u introduced its data edge to p and removes another
  module first, the same happens though u and p have data edges to all they lead to
  (`DataRun.DataDangles`, `DataRun.DataWouldHold`).
- *Removal, extensions both ways.*  The comment at src/module_dependencies.c:643-646 says that
  extension edges reverse imports; the edges for identity references (1452-1453) do not.  If the module
  a is removed with m, a has an extension edge to m and m has one to a third module d, the closure that
  ends the removal of a links a, already freed, to d: `RemovalRuns.ExtensionRun` for all graphs of this
  shape, `RemovalRuns.ExtensionsDangle` for one.  `RemoveModule` is proved for graphs in which no module
  that may leave is between two such edges (`RemovalInvariant.Plan.Guarded`).  No graph of these shapes
  meets the conditions (`RemovalConditions.CrossingIsUnsound`, `RemovalConditions.ForgettingIsUnsound`,
  `RemovalConditions.ExtendingIsUnsound`).
- *Lock file names.*  A lock file leads back to its module exactly when the module name contains
  neither its own suffix nor one that is tried before it (`LockFiles.ModuleOf`, `LockFiles.NameLost`).
  When all locks of a session are released the reference counts come out right if and only if every
  file leads back (`DataManager.DmContext.UnlockAll`).
- *Read-only copies.*  A notification session reads a module through a copy that shares the tree of a
  commit session and does not count (src/request_processor.c:151).  When the commit context ends and
  the module is uninstalled, the copy is left with a destroyed context
  (`DataManager.DmContext.ReadOnlyOutlives`).  After a successful uninstall a session has a copy of the
  module if and only if one had a read-only copy before (`DataManager.DmContext.Uninstall`).
- *Locking a datastore.*  A failure leaves the state as it was if and only if the session held no lock
  of an implemented module before the failing one and did not hold the datastore: the rollback also
  unlocks what had been locked earlier (`DataManager.DmContext.RefusalLosesLock`).  With
  `SR_ERR_UNAUTHORIZED` the datastore stays locked; it is the result if and only if the lock of the last
  implemented module was refused, whatever became of the others (`DataManager.DmContext.LockDatastore`).
- *Replay of operations.*  Operations are skipped by a comparison over the length of their own module
  name, so those on a module whose name begins the name of an up-to-date module are lost
  (`FastCommit.PrefixMatches`); `FastCommit.Engine.PrepareTrees` says exactly when a commit still
  writes what reload and replay would give.
- *Last commit.*  Its time is taken after the files are written, so no copy of a file that a commit
  wrote, loaded before or after, is found up to date until someone else writes the file
  (`FastCommit.Engine.WriteFiles`).
- *Request queue.*  If the Request Processor refuses a request taken from the queue while others wait,
  nothing is outstanding and the rest waits for an unrelated event; a new request then goes on at once
  and overtakes them (`ConnectionManager.CmContext.OvertakingRun`), which happens in no other way
  (`InOrder`, part of the invariant).  Requests that were in order stay so
  if and only if the new one waits its turn or cannot be told from those waiting
  (`ConnectionManager.CmContext.ForwardRequest`); a session is left waiting with nothing outstanding if
  and only if the request taken from its queue is refused and was not the last
  (`ConnectionManager.CmContext.OutMessage`).
- *Sending.*  A send that fails closes the connection at once, which drops an idle session that the
  caller then uses: `stale` in `ConnectionManager.CmContext.OutMessage` and
  `ConnectionManager.CmContext.StopRequest` says exactly when.
- *Input buffer.*  The test for a complete frame omits the preamble.  Messages are taken out exactly as
  sent, wherever the bytes are cut, unless the bytes that have arrived stop one to four short of the end
  of a frame (`InBuffer.Receiver.Receive`, `InBuffer.LastByteMissing`).
- *Loading a module.*  If its own file does not parse, the message about it goes through a null pointer
  (`Fault` in `SchemaLoader.Loader.LoadModule`).

## Model

| member | source | states |
|---|---|---|
| DepGraph.AddDependency | src/module_dependencies.c:512-567 | a new edge is appended, with its originator; a known one keeps its place and gains only directness and an originator it does not have; no list gets two entries of one type and destination |
| DepGraph.DropTransitive | src/module_dependencies.c:587-597 | removing the computed entries while walking the list leaves exactly the direct ones, in order |
| Reachability.OneMoreStop | src/module_dependencies.c:613-661 | a path through K and earlier stops exists exactly when one avoids K or one leads to K and one from K, the step of the closure |
| ModuleGraph.MdCtx.AddEdge | src/module_dependencies.c:2117-2118 | recording an edge on both sides adds exactly that direct edge to each, with its originator, and keeps the two sides converse |
| ModuleGraph.MdCtx.ForgetTransitive | src/module_dependencies.c:583-611 | both sides are reduced to their direct entries |
| ModuleGraph.MdCtx.LinkThrough | src/module_dependencies.c:618-659 | exactly the edges that meet at K with equal types are added, on both sides; the two lists being walked do not change under the walk; only live modules are touched |
| ModuleGraph.MdCtx.FloydWarshall | src/module_dependencies.c:613-661 | lists grow at their end by transitive entries only; from converse sides the result is the closure and its converse |
| ModuleGraph.MdCtx.TransitiveClosure | src/module_dependencies.c:573-664 | direct entries are unchanged, and if they mirror each other, module I lists (t, J), I other than J, exactly when a path of direct t-edges leads from I to J, and the inverted lists are the exact converse |
| RemovalSpec.UsageCount | src/module_dependencies.c:2713-2723 | zero exactly when nobody but the module being removed needs the target, extensions aside |
| RemovalSpec.RemoveEntriesTo | src/module_dependencies.c:2742-2753 | the loop unlinks every entry to the module and keeps the others in order |
| RemovalSpec.ForgetOriginator | src/module_dependencies.c:2582-2605 | the loop drops one originator from direct data entries and unlinks those left without any |
| RemovalSpec.SurvivingTwice | src/module_dependencies.c:2507-2764 | removing one set of modules and then another leaves of a list what removing both at once leaves |
| RemovalInvariant.InvSurvives | src/module_dependencies.c:2507-2764 | removing modules that are not being removed already keeps the invariant over direct edges |
| RemovalSteps.PushKeepsInv | src/module_dependencies.c:2507-2633 | cutting the edges into a module and what it introduced keeps the invariant with that module busy |
| RemovalSteps.CutKeepsInv | src/module_dependencies.c:2740-2757 | unlinking one dependency of a busy module keeps the invariant, up to the pair it unlinks |
| RemovalSteps.ProgressDone | src/module_dependencies.c:2706-2764 | when a busy module has no dependency left, the other lists are what removing it and the modules gone with it leaves of them |
| RemovalSweep.SweptNested | src/module_dependencies.c:2724-2739 | what a nested removal takes along, together with what went before, holds all that any of them imports or includes and alone needs |
| RemovalSweep.DrawnNested | src/module_dependencies.c:2724-2739 | every module that went was listed by one that went and was not held back |
| RemovalRuns.Advance | src/module_dependencies.c:2706-2758 | the loop over the dependencies of a module unlinks, up to a given one, those that stay: all inverted entries and that forward entry, nothing else |
| RemovalRuns.SplitRun | src/module_dependencies.c:2706-2758 | for every graph of the shape x, y, x: a replay of the removal of m reaches the removal of x with m naming x and x not leading back to m |
| RemovalRuns.SplitRunDangles | src/module_dependencies.c:2840-2843 | if x has no dependencies it is deleted next, and m still names it |
| RemovalRuns.SplitOrderDangles | src/module_dependencies.c:2740-2757 | three modules on which this happens, from the start to the deletion |
| RemovalRuns.ExtensionRun | src/module_dependencies.c:2840-2851 | for every graph with extension edges from a to m and from m to d: a is deleted, and the closure that follows is to link a to d through m, which no set of pending modules makes safe |
| RemovalRuns.ClosureTouchesGone | src/module_dependencies.c:638-650 | edges of one type from a module that is gone to K and from K to a third make the closure unsafe |
| RemovalRuns.ExtensionsDangle | src/module_dependencies.c:1447-1460 | three modules on which this happens |
| RemovalConditions.ClosedIsTransitive | src/module_dependencies.c:613-661 | the edges of a closed graph are a transitive relation, type by type |
| RemovalConditions.ContestedMeans | src/module_dependencies.c:2713-2724 | for a target that nobody needs, a module it lists has any other user if and only if it has a direct one |
| ClosureRun.ForgetfulRun | src/module_dependencies.c:2706-2851 | for every graph in which u takes p with it and p lists x, y, x, with only p needing y: a replay of the removal of u passes x, removes y, runs the closure, and deletes x, which p still names |
| ClosureRun.ForgettingDangles | src/module_dependencies.c:2845-2851 | four modules on which this happens |
| ClosureRun.ForgetClosed | src/module_dependencies.c:573-664 | their lists are a closure and its converse |
| DataRun.DataDangles | src/module_dependencies.c:2574-2633 | five modules on which it happens after an earlier closure, though data edges lead from u to p and from p to all it lists |
| DataRun.DataWouldHold | src/module_dependencies.c:2574-2633 | the data edges of that graph: p has one to x and to y, and the one module that lists p has one to p and lists neither |
| DataRun.DataClosed | src/module_dependencies.c:573-664 | its lists are a closure and its converse |
| RemovalConditions.GoesWithTarget | src/module_dependencies.c:2724-2739 | in terms of the graph: a submodule or module that is not installed goes if the target lists it and no other module has a direct edge to it that is not an extension |
| RemovalConditions.SoundFromGraph | src/module_dependencies.c:2460-2505 | a closed graph that mirrors itself, with the order condition on direct users for the target and on all users for the others unless they are held back, and the condition on extensions, meets what the removal needs |
| RemovalConditions.ChainIsHeld | src/module_dependencies.c:2713-2724 | a module that imports every removable module it lists, while whoever may take it imports it and lists none of those, is held back, whatever the order of its list |
| RemovalConditions.CrossingIsUnsound | src/module_dependencies.c:2740-2757 | no graph of the shape x, y, x at the target meets it |
| RemovalConditions.ForgettingIsUnsound | src/module_dependencies.c:2845-2851 | no graph of the shape with a closure in between meets it |
| RemovalConditions.ExtendingIsUnsound | src/module_dependencies.c:1447-1460 | no graph of the shape with extensions both ways meets it |
| ModuleGraph.MdCtx.CutIncoming | src/module_dependencies.c:2507-2527 | every list named by a direct inverted entry loses its entries to the module, other lists none |
| ModuleGraph.MdCtx.ForgetOriginated | src/module_dependencies.c:2574-2633 | exactly the modules it directly imports forget the module as an originator, on both sides |
| ModuleGraph.MdCtx.Unlink | src/module_dependencies.c:2740-2757 | one forward entry and all inverted entries for it go; the rest of the direct edges stays |
| ModuleGraph.HeldNeeds | src/module_dependencies.c:2713-2724 | when a module that is held back is reached from one being removed, every removable module it lists is imported or included, by a computed edge at least, by someone other than it, so nothing in its list goes |
| ModuleGraph.PinIsUser | src/module_dependencies.c:2713-2724 | a module that one that stays imports or includes is never found unused |
| ModuleGraph.InvIsSafe | src/module_dependencies.c:638-650 | while removals are pending, the closure touches live modules only: a module that a module that is gone still extends, in its stale inverted list, extends nothing itself |
| ModuleGraph.MdCtx.Detach | src/module_dependencies.c:2507-2633 | the edges into the module are cut and then it is forgotten as an originator where it is imported from, on both sides |
| ModuleGraph.MdCtx.DetachReady | src/module_dependencies.c:2507-2633 | a module nobody else needs becomes busy, and the invariant holds with it busy; no edge appears |
| ModuleGraph.MdCtx.StepDependency | src/module_dependencies.c:2713-2758 | one dependency is removed or unlinked, the loop invariant holds again and one direct dependency less is left; what the module alone needs and may go is gone or still to come |
| ModuleGraph.MdCtx.DropDependencies | src/module_dependencies.c:2706-2764 | the loop ends, with backward extension edges too, leaves the module without direct dependencies, and has taken all that it alone needs and may go |
| ModuleGraph.MdCtx.RemoveInternal | src/module_dependencies.c:2439-2855 | the recursion ends; it is refused exactly when someone needs the module; what it leaves is a function of the set of modules that went; those besides the target are submodules or not installed, no survivor needs them, and whatever a module that went alone needs went too |
| ModuleGraph.MdCtx.RemoveModule | src/module_dependencies.c:2857-2875 | a removal that is refused or finds nothing changes nothing; otherwise no entry left names a removed module, direct edges are the survivors, both sides are the closure and its converse, the list of implicitly removed modules is exact, and the graph is sound again; for a submodule that goes alone computed entries stay; every submodule or module that is not installed goes that the target lists and nobody else needs, or that a module that goes imports or includes and nobody else needs; nobody goes but by a module that goes, lists it and is not held back |
| Revisions.StrCmpTrans | src/module_dependencies.c:307-314 | the string comparison is transitive, strictly where one step is strict |
| Revisions.DatesCompare | src/module_dependencies.c:314 | on revision dates of the form YYYY-MM-DD the string comparison is the order of time |
| Revisions.ModuleList.Scan | src/module_dependencies.c:1884-1901 | finds the flagged and the equal revision of the name, if there are any |
| Revisions.ModuleList.Insert | src/module_dependencies.c:1975-1988 | the new revision is added once, and again exactly the greatest revision of every name is flagged |
| Revisions.ModuleList.PickLatest | src/module_dependencies.c:2766-2782 | the greatest revision among the others of the name |
| Revisions.ModuleList.Remove | src/module_dependencies.c:2766-2792 | only the entry goes, and again exactly the greatest revision of every name is flagged |
| Revisions.FlagsDetermined | src/module_dependencies.c:1975-1988 | the flags follow from names and revisions alone |
| Revisions.OneLatest | src/module_dependencies.c:1975-1988 | two flagged revisions of one name are the same entry |
| Revisions.ValidInAnyOrder | src/module_dependencies.c:1975-1988 | flags that are right for a list are right for its entries in any order |
| Revisions.ListedFound | src/module_dependencies.c:296-317 | in a tree ordered by the comparison, with the entries of a list that insertions and removals left, a search without a revision finds exactly the greatest revision of the name, and fails only for a name that is not there |
| Revisions.RevisionFound | src/module_dependencies.c:1314-1339 | a search with a revision finds exactly that entry |
| SchemaLoader.Loader.LoadIdentDeps | src/data_manager.c:1122-1157 | ends on cyclic graphs; every implemented extension of an import is loaded with its own dependencies, and what is new was parsed once, is reachable and has loaded what goes with how it was reached |
| SchemaLoader.Loader.LoadOffered | src/data_manager.c:1137-1149 | an implemented extension of an import is loaded with its extension and data dependencies, and a data dependency of it is noted |
| SchemaLoader.Loader.LoadDependency | src/data_manager.c:1175-1198 | an extension or data dependency is loaded with what its imports offer |
| SchemaLoader.Loader.LoadDeps | src/data_manager.c:1159-1206 | ends on cyclic graphs; every extension and data dependency is loaded, under the same conditions; data dependencies are noted, and only when there are some |
| SchemaLoader.Loader.LoadModule | src/data_manager.c:1238-1274 | each error if and only if its case: an internal one exactly when the root or a module loaded before cannot be parsed or marked, a fault for a root that does not parse; on success the dependencies of the root are loaded, nothing unreachable is, nothing failed, and the parse log has no module twice; a module that no one loaded depends on has its own dependencies loaded, one that no import offers has what its imports offer; the flag for data dependencies is set by the root and by modules that are offered, and by nothing else |
| LockFiles.StrStr | src/data_manager.c:1808-1814 | the first place where the pattern occurs, or none if it does not |
| LockFiles.ModuleOf | src/data_manager.c:1797-1825 | the lock file of a module leads back to it if and only if its name is recoverable, and otherwise to a shorter name or to none |
| LockFiles.DotlessRecoverable | src/data_manager.c:1797-1825 | a name without a dot is recoverable in every datastore |
| LockFiles.NameLost | src/data_manager.c:1812-1814 | a name whose running lock is taken for that of another module |
| LockFiles.CandidateByName | src/data_manager.c:1851-1853 | the test on the end of the name recognises exactly candidate lock files |
| LockFiles.Injective | src/common/sr_utils.c:333-344 | different modules or datastores have different lock files |
| LockState.Determined | src/data_manager.c:1621-1867 | locking set, datastore locks and reference counts follow from the sessions |
| LockState.TakeKeeps | src/data_manager.c:1661-1671 | taking a lock that nobody has keeps counts, exclusion and the locking set right |
| LockState.DropKeeps | src/data_manager.c:1706-1716 | so does giving one up |
| LockState.HeldIsAlive | src/data_manager.c:1836-1846 | the schema behind a held lock is there and in use, so the lookup by lock file finds it |
| LockState.Restored | src/data_manager.c:1764-1771 | with the same sessions, locks, flags and counts are the same; schemas may have been loaded, unused |
| DataManager.DmContext.Find | src/data_manager.c:3072-3129 | fails exactly for a schema whose context was destroyed, or that is missing and cannot be loaded; loaded if missing |
| DataManager.DmContext.LockModule | src/data_manager.c:1621-1675 | unknown exactly as the lookup says; refused exactly when another session or process has the lock, access is denied, or the lock file fails for another reason, each told apart; locking twice changes nothing; the invariant is kept |
| DataManager.DmContext.UnlockModule | src/data_manager.c:1677-1721 | succeeds exactly when the session holds the lock, which alone goes |
| DataManager.DmContext.LockListed | src/data_manager.c:1753-1778 | every module before the stop is locked, without data, or refused for lack of authorization, which is the result if and only if it was so for the last implemented one; the stop is at a lock held elsewhere, a lock file that fails, or a module that was uninstalled or cannot be loaded |
| DataManager.DmContext.Rollback | src/data_manager.c:1764-1766 | none of the named modules stays locked, and the list is the old one if none had been locked before |
| DataManager.DmContext.LockDatastore | src/data_manager.c:1723-1782 | a held datastore is refused without change; success holds every implemented lockable module that access allows, and is reported as lack of authorization if and only if the last implemented one was refused; a failure has its reason in a module that was uninstalled or cannot be loaded, in a lock held elsewhere or in a lock file that fails, gives up the datastore and what was held of the modules before it, and so restores locks, flags and counts if and only if nothing of that was held before |
| DataManager.DmContext.TakeDatastore | src/data_manager.c:1739-1749 | taken unless it is held, by whichever session, and is not the candidate; module locks stay |
| DataManager.DmContext.RefusalLosesLock | src/data_manager.c:1764-1771 | a session that holds the lock of one module and asks for a datastore in which another session holds a lock is refused and has lost its own |
| DataManager.DmContext.UnlockFirst | src/data_manager.c:1838-1857 | one lock goes; the count that goes down is the module's own exactly when its file leads back to it, and otherwise that of a module with a shorter name or none |
| DataManager.DmContext.UnlockAll | src/data_manager.c:1836-1858 | all locks of the session go, exclusion and the locking set stay right, and counts that were right are right if and only if every file leads back to its module |
| DataManager.DmContext.UnlockDatastore | src/data_manager.c:1827-1867 | all locks and datastore flags of the session go, nothing of other sessions; counts under the same condition |
| DataManager.DmContext.SwitchDs | src/data_manager.c:7249-7254 | locks and counts stay |
| DataManager.DmContext.StartSession | src/data_manager.c:2390-2430 | a session without locks or copies |
| DataManager.DmContext.StopSession | src/data_manager.c:2432-2454 | the session goes with all locks and copies; the invariant is kept, the counts if and only if every lock file leads back to its module |
| DataManager.DmContext.FreeCopy | src/data_manager.c:290-304 | one reference less unless the copy is read-only |
| DataManager.DmContext.LoadCopy | src/data_manager.c:1484-1488 | one reference more for a copy that was not there; fails exactly as the lookup does |
| DataManager.DmContext.CopyIfNotLoaded | src/data_manager.c:7121-7180 | a read-only copy is added only where there is none, and does not count |
| DataManager.DmContext.Uninstall | src/data_manager.c:5437-5473 | refused exactly while a lock, an owning copy or a previous tree refers to the schema; after it some session has a copy of the destroyed context if and only if one had a read-only copy |
| DataManager.DmContext.ReadOnlyOutlives | src/request_processor.c:150-151 | a read-only copy taken from the last session that refers to a module is left behind when that session ends and the module is uninstalled |
| DataManager.DmContext.Install | src/data_manager.c:5344-5384 | an uninstalled schema gets a context again, with no reference to it |
| DataManager.DmContext.LockForCommit | src/data_manager.c:4316-4320 | the result is that of the lock rules: a module without data, or locked by the commit session or the committing session, passes; otherwise a third session or process, a refusal or a broken lock file stops it, each told apart; the committing session gets no new lock |
| DataManager.DmContext.CommitLock | src/data_manager.c:4312-4341 | success if and only if every modified module passes the lock rules in the state before and is not disabled in running, otherwise the result for the first that does not; on success no modified module is locked by a third session; only the commit session has gained locks |
| DataManager.DmContext.LoadTrees | src/data_manager.c:4346-4473 | a data tree for every modified module, a previous tree for exactly those watched; fails exactly for a module that is not known |
| DataManager.DmContext.KeepPrevious | src/data_manager.c:687-714 | one reference more for a previous tree that was not there |
| DataManager.DmContext.FreeCommit | src/data_manager.c:4013-4051 | previous trees, copies and locks of the commit go, nothing else; counts if and only if its lock files lead back |
| DataManager.DmContext.RunCommit | src/data_manager.c:4111-4128 | a whole commit succeeds if and only if every modified module passes, and so never goes on with a module that a third session or another process has locked; otherwise it ends with the result for the first that does not, before any tree is loaded; it leaves locks, flags and copies of all other sessions exactly as they were, whatever its result, and their counts when lock files lead back to their modules |
| FastCommit.MatchesByPrefix | src/common/sr_utils.c:308-329 | an operation matches exactly the module names that its own module name begins |
| FastCommit.PrefixMatches | src/common/sr_utils.c:308-329 | an operation that matches a module it is not on |
| FastCommit.Engine.Load | src/data_manager.c:1391-1400 | the copy has content and time of the file, or is empty without a stamp if there is none, and the invariant is kept |
| FastCommit.Engine.ExternalWrite | src/data_manager.c:3676-3680 | a write that moves the time of the file on keeps the invariant |
| FastCommit.Engine.Edit | src/rp_dt_edit.c:639-691 | a successful edit is in the tree and in the log, a failed one in neither |
| FastCommit.Engine.FreshMeans | src/data_manager.c:3676-3687 | in every reachable state, a copy found up to date was loaded from what the file holds now |
| FastCommit.Engine.LoadModified | src/data_manager.c:4400-4442 | session trees for modules that are up to date, or for all when forced, file contents for the others |
| FastCommit.Engine.ReplayLog | src/rp_dt_edit.c:639-691 | modules not shadowed by an up-to-date name get all their operations in order, the others none; a failure comes from an operation that does not apply |
| FastCommit.Engine.PrepareTrees | src/data_manager.c:4400-4442 | a commit writes what replaying the log on the content of the file would give if and only if the module is up to date, not shadowed, or unaffected by its operations; a shadowed one that is not up to date keeps the content of the file; a forced commit writes the session trees |
| FastCommit.Engine.WriteFiles | src/data_manager.c:4590-4591 | exactly the trees are written, the invariant is kept, and no copy of a written file is up to date, whether it was there or is loaded later |
| FastCommit.Engine.Discard | src/data_manager.c:3593-3602 | copies and log of the session go, those of others stay, and the invariant is kept, so the session may go on |
| FastCommit.Engine.Commit | src/rp_dt_edit.c:844-1000 | from any reachable state: it fails only if an operation does not apply, and then changes nothing; without a modified module nothing is written and the time of the last commit stays; otherwise exactly the modified files are written, each with the result of replay on what the file held under the condition above, and the session starts afresh while others keep copies and logs |
| NacmWalk.CheckSubtree | src/data_manager.c:4809-4844 | checked are exactly the nodes without a denied proper ancestor, each once and in order; some is denied exactly when some node of the subtree is |
| NacmWalk.FirstDenied | src/data_manager.c:4827-4833 | pruning loses nothing: a subtree with a denied node has an unpruned one |
| NacmWalk.CheckChange | src/data_manager.c:4932-4957 | fails exactly when a check that is made fails, of a node with no denied node above it; otherwise a change is denied exactly when some node that it updates, deletes or creates is |
| NacmWalk.CheckChanges | src/data_manager.c:4930-4967 | fails exactly when a check that is made fails; otherwise the commit is refused exactly when some node that a change touches is denied |
| Subscriptions.NextElem | src/data_manager.h:241-267 | the macro steps to the next node of the subtree in document order, and stops at its end |
| Subscriptions.FindInstance | src/data_manager.c:3845-3852 | the walk finds the subscribed node exactly when the subtree has an instance |
| Subscriptions.Match | src/data_manager.c:3803-3858 | true exactly when the change is at or below the subscribed node or an instance of it is inside the changed subtree |
| Subscriptions.DropEntry | src/data_manager.c:5586-5597 | the entry goes from all three arrays and the end marker moves with the types |
| Subscriptions.KeptMeans | src/data_manager.c:5575-5598 | what the filter keeps is exactly what the predicate holds of |
| Subscriptions.RemoveNonMatching | src/data_manager.c:5559-5602 | what is left of the three arrays is the order-preserving filter of the diff list by the match, with the end marker behind it |
| PrivData.DataParent | src/common/sr_utils.c:680-694 | the nearest data node above, through augments, or none if no data node is above; the path hash is the parent's and the node's own name |
| PrivData.DepthCounts | src/data_manager.c:816-820 | the depth is the number of data ancestors |
| PrivData.VisitNode | src/data_manager.c:795-815 | a fresh data node gets path hash modulo 2^32 and depth modulo 2^16, nothing else changes |
| PrivData.InitPrivData | src/data_manager.c:768-828 | every node is visited once, in document order, and every fresh data node ends with its hash and depth |
| ConnectionManager.Unlink | src/cm_session_manager.c:205-242 | the walk takes out the first occurrence of the session |
| ConnectionManager.CmContext.FreshId | src/cm_session_manager.c:439-455 | the first number drawn that is neither zero nor in use, or none if too many were drawn before it |
| ConnectionManager.CmContext.CreateSession | src/cm_session_manager.c:385-481 | a new session has an id that is not zero and not in use, and is in its connection's list; failure changes nothing |
| ConnectionManager.CmContext.DropSession | src/cm_session_manager.c:484-505 | the session goes from the table and from the list of its connection |
| ConnectionManager.CmContext.ForwardRequest | src/connection_manager.c:864-928 | the request is forwarded at once if nothing is outstanding and queued otherwise; one at most is outstanding, the order is kept if and only if it waits its turn or nothing that differs waits, and no run overtakes unless one was refused |
| ConnectionManager.CmContext.StopRequest | src/connection_manager.c:697-769 | an idle session goes, a busy one is only marked, a wrong id changes nothing; a message that is not taken keeps the session; which sessions are stopped in the Request Processor; dropped twice exactly when the send closes the connection of an idle one |
| ConnectionManager.CmContext.OutMessage | src/connection_manager.c:1709-1777 | sent on the session's connection unless its stop was requested, and then that connection is there; the last response drops a session that waits for its stop; else the next request goes out in order, and others are left waiting with nothing outstanding if and only if it is refused; if the send closes the connection, its sessions are lost as by a close; the session is used after it is gone exactly when that happens with nothing outstanding |
| ConnectionManager.CmContext.OvertakingRun | src/connection_manager.c:903-914 | a refused request and a new one: what was forwarded is no beginning of what was received |
| ConnectionManager.CmContext.CloseFirst | src/connection_manager.c:416-440 | one session of the connection is stopped in the Request Processor and dropped, or detached, and the list loses its first |
| ConnectionManager.CmContext.CloseConnection | src/connection_manager.c:400-455 | the loop ends; idle sessions of the connection are gone, each stopped once in the Request Processor and in order, busy ones detached and marked, others untouched |
| OutBuffer.StreamRoundTrip | src/connection_manager.c:567-575 | reading frames back from the stream gives the messages in the order sent |
| OutBuffer.AcceptedMeans | src/connection_manager.c:504-533 | what a socket takes of n bytes is what its sends have room for, up to n, and the sends go on as long as they take something and bytes are left, no further |
| OutBuffer.Buffer.Expand | src/connection_manager.c:460-485 | room for the request, contents unchanged |
| OutBuffer.Buffer.Append | src/connection_manager.c:564-575 | the frame of the message is behind the bytes that wait |
| OutBuffer.Buffer.Flush | src/connection_manager.c:490-541 | exactly the beginning of the waiting bytes that the socket takes is sent, and the rest waits; the descriptor is watched if the last send would block, the connection is to be closed if it failed; bytes sent and bytes waiting are still the stream of all messages |
| OutBuffer.Buffer.Send | src/connection_manager.c:546-584 | a message of an allowed size joins the stream and is flushed behind what waits, another is refused without effect |
| OutBuffer.Buffer.Writable | src/connection_manager.c:1233-1257 | a writable event flushes what waits and keeps the stream |
| InBuffer.ReadOn | src/connection_manager.c:1148-1154 | reading on with the bytes kept gives the frames that reading all bytes at once gives |
| InBuffer.PartOfStream | src/connection_manager.c:1123-1146 | any beginning of a stream is read as a beginning of its messages |
| InBuffer.Process | src/connection_manager.c:1106-1157 | the messages at the beginning are taken out, in any case; malformed exactly at an empty frame with bytes behind it; bytes are read that have not arrived exactly if what is left is short of one to four; otherwise the rest is kept; with no empty frame these are all complete frames |
| InBuffer.Receiver.Receive | src/connection_manager.c:1163-1218 | over all arrivals, cut anywhere, the messages are those sent, in order, and all of them once all has arrived, if and only if no arrival stops one to four bytes short of the end of a frame |
| InBuffer.LastByteMissing | src/connection_manager.c:1129 | a message of five bytes that is taken with the last byte missing |

## Left out

- ModuleGraph.MdCtx.RemoveModule: the conditions are shown to fail for the shapes of `RemovalRuns`, `ClosureRun` and `DataRun`; between those and the conditions there are graphs on which a removal ends well for other reasons, such as a user that stays or a stale entry that hides the failure. Of a module that goes with another, a list that is split stays excluded if it holds even one removable module by data edges only, or one that whoever may take the module lists as well, or by another type; the runs show that this can fail, not that it must. Whoever introduced a data edge is taken to be an end of it or to import both ends. For a submodule no closure runs: if it goes alone, transitive entries stay, and if others go with it nothing is said about them.
- RemovalConditions.SoundFromGraph: the same lists stay excluded.
- ModuleGraph.MdCtx.RemoveInternal: one module per call, which is how the Data Manager calls it; the lookup against modules removed implicitly before, and subtree references and the data tree of the graph, are not modelled.
- Revisions.ModuleList.Insert: a nested insertion of another revision of the same name while the first is being parsed is not modelled; such a pair could both end up flagged.
- SchemaLoader.Loader.LoadModule: the root is not entered into the set of loaded modules, so a cycle through it parses it a second time; persist data and feature handling are not modelled.
- DataManager.DmContext.RunCommit: no step of another session comes between the phases; validation, notifications and the write phase do not touch locks or counts and are not steps of the model; allocation failures are not modelled.
- DataManager.DmContext.LoadCopy: the counts taken when a session copies the trees of another (src/data_manager.c:7047, 7108) and the reference of access control to its schema (src/nacm.c:876, 968) are not steps.
- FastCommit.Engine.ExternalWrite: assumes that every other writer moves the time of the file forward, that the clock does not go back, and that no file is newer than the clock; one datastore at a time, and the candidate, which is always up to date and not written, is not modelled.
- FastCommit.Engine.ReplayLog: stops at the first operation that fails, as a commit does; the refresh of a session, which marks such operations and goes on, and the discard of a single module are not modelled.
- Subscriptions.Match: data nodes are containers, lists or leafy, as in configuration data; notifications and RPC trees are not modelled.
- ConnectionManager.CmContext.CreateSession: the numbers drawn in one call are a finite sequence; credentials are not modelled.
- OutBuffer.Buffer.Flush: once a write fails and the connection is to be closed, nothing is promised about the bytes that wait.
- InBuffer.Process: what happens after bytes beyond those arrived are read, and messages whose processing fails, are not modelled.
- Filtering of changes for copy-config (src/data_manager.c:4596-4775): depends on node ownership inside libyang.
- Removal of nodes that are not enabled, schema traversal and XPath atomising: dominated by libyang details.
- Request Processor, Notification Processor, Persistence Manager, NACM rules, file access and identity switching: used as oracles only.
