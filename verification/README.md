# Models and proofs for the build scheduler

A Dafny model of the parts of the build tool that decide what is built, in which
order, under which cache key, and from which sources. `dafny verify dfyconfig.toml`
checks all of it.

- `Wrappers`: optional values.
- `Graphs`, `Dependencies`, `DependencyOrder`, `Planner`, `Exceptions`: finite graphs, the
  dependency traversal with its two visited sets and the order it yields elements in, the
  depth planner and the removal of excepted elements. Each algorithm is proved equal to a recursive specification, which is then
  proved to compute what it promises.
- `CacheKeys`, `KeyLoading`: weak, strict and strong keys. The key generator is an
  arbitrary injective function that never returns the empty string.
- `Readiness`, `SessionState`, `SessionPlan`, `SessionEvents`, `Sessions`: the elements
  of one session. The class `Session` has the fields and the mutually recursive methods
  of elements; its ghost `book` keeps what only the proof needs. `Inv` is the invariant
  inside a cascade of notifications (a counter is the number of dependencies that are not
  ready plus the notifications still owed); `Quiet` is what holds between events, and
  `Follows` is what one event does.
- `SessionRuns`, `SessionResults`, `RunResults`, `SessionRace`: opening a session, the
  cache query driver and runs of arbitrary events; what follows for every state they
  leave behind; the same in terms of the events that led there; and a run with a
  surprising end.
- `ArtifactNames`, `ArtifactLoading`, `ArtifactRoundTrip`, `ArtifactStore`: artifact
  names, loading elements from artifacts, and the local artifact cache with its remotes.
- `Overlaps`: which staged files overwrite which others, and who is held responsible.
- `SourceCaches`, `SourceFetching`: fetching and staging sources that build on each other.
- `Describe`: printing and parsing of long git-describe strings.

## What is assumed

- Dependency graphs are finite. Results about keys and about ready elements are for
  acyclic graphs, as the loader sees to (src/buildstream/exceptions.py:76); the invariants
  of a session are not.
- No dependency list names an element twice. `Readiness.InitialCount` shows that the
  counters need this.
- Nothing is ready while elements are being loaded, and blobs that are in the local store
  stay there for the session (src/buildstream/_context.py:739).
- The effects of a job that loads an artifact take place at once, and so do those of a
  build job together with its end on the main thread. Any event may come between loading
  an artifact and the end of that loading.
- A loading event happens only when the queues would start one: for an element without an
  artifact object, or for a pull when one is pending.
- Remotes may fail or lack anything at any time, but what they give for a name is an
  artifact or source of that name.
- Staged artifacts consist of plain files at relative paths, locations are in canonical
  form, and an element stages at most once in a staging session.

## Where code and promise differ

- `RunResults.LacksKeyInRun`, `SessionRace.BuildableWithoutKey`: in non-strict mode an
  element may be scheduled before its dependencies have strong keys. If its sources are
  still missing when its last build dependency becomes ready, nothing calculates its key
  from then on (`SessionResults.KeyStaysUnknown`), and the assertion before caching fails.
  The lemma says exactly when, for every state of every run.
- `Dependencies.DirectOfAllRepeats`, `Dependencies.SharedDependencyRepeats`: several
  targets without recursion do not share what they have yielded, so that an element can
  come twice.
- `Exceptions.ExceptedTargetIsRemoved`, `Exceptions.DependencyOfTargetIsRemoved`: a target
  is removed if it is on the border, and so are dependencies of a target that stays.
  `Exceptions.TargetSurvives` and `Exceptions.ClosureSurvives` say exactly when.
- `ArtifactNames.ReferenceNamesArtifact`, `ArtifactNames.DottedNameIsLost`: an element
  whose normal name has another dot is not found by the reference that artifacts record
  for it.
- `ArtifactLoading.Loader.NewFromArtifactName`, `ArtifactLoading.FailsThenLoads`: an
  element whose dependencies could not all be loaded stays known under its name, with the
  dependencies loaded so far, and is found there by the next load.
- `SourceCaches.LastIndexRemoteDecides`, `SourceCaches.KnownSourceIsNotPulled`: a later
  index remote that does not know a source makes an earlier answer ineffective.
- `SourceFetching.MissingFetchedOnce`, `SourceFetching.FetchesDouble`: sources fetched on
  top of previous ones are fetched again and again.
- `SourceFetching.ElementSources.FetchOriginalSource`, `SourceFetching.AbsoluteDirectory`:
  a directory with a leading slash is stripped of it for staging
  (src/buildstream/_elementsources.py:467) but not for opening the previous sources
  (src/buildstream/_elementsources.py:497), which rejects it
  (src/buildstream/storage/directory.py:530). Where nothing else fails, fetching fails
  exactly for missing sources that need previous ones in such a directory.
- `ArtifactStore.CompleteIsFound`: an artifact without public data is cached after it is
  pulled, but need not be found so when it is looked for.
- `Describe.ParseUndoesRender`: an empty tag is printed like no tag.

## Model

| member | source | states |
|---|---|---|
| SessionResults.CountersCountUnready | src/buildstream/element.py:2468-2493 | between events, the two counters of every element are the numbers of its direct runtime and build dependencies that are not ready |
| SessionResults.ReadyIffClosureIsGood | src/buildstream/element.py:2468-2473 | an element is ready exactly if it and everything in its runtime closure has an artifact, a truthy strong key and a successful cached result, provided loading has ended for those that do |
| SessionResults.OrderDoesNotMatter | src/buildstream/element.py:2468-2493 | two sessions that agree on which elements are cached successfully agree on readiness and on all counters, once these elements are concluded: loaded, noted, and no pull to follow |
| SessionResults.ConcludedIsGood | src/buildstream/element.py:3397-3414 | a concluded element that is cached successfully has its strong key |
| RunResults.ReadyInRun | src/buildstream/element.py:2468-2473 | at any step of any run: ready exactly if the runtime closure is in place, where no loading that events began is still to end |
| RunResults.RunsAgree | src/buildstream/element.py:2468-2493 | two runs that end with the same elements cached successfully end with the same counters and ready elements, whatever events they consist of |
| RunResults.SameContext | src/buildstream/element.py:1054-1143 | two sessions of one project, in the same mode and with the same keys, have the same context |
| RunResults.OutstandingMeans | src/buildstream/element.py:1840-1854 | loading is incomplete exactly if an event began it and none has ended it since |
| Readiness.InitialCount | src/buildstream/element.py:1125-1129 | counters that start at list lengths count what is not ready exactly if no dependency list has a repeat |
| Readiness.ListLength | src/buildstream/element.py:1125-1129 | a dependency list is as long as its set of reverse links exactly if nothing repeats |
| Readiness.MarkReady | src/buildstream/element.py:2473-2476 | setting the ready flag keeps "not ready plus notifications owed" equal to the counter |
| Readiness.Notify | src/buildstream/element.py:2476-2486 | a notification takes one from a counter that is positive, so the assertions that no counter drops below zero hold |
| Readiness.ZeroMeansReady | src/buildstream/element.py:2472-2481 | a counter at zero means all those dependencies are ready and have said so |
| SessionState.BecomesReady | src/buildstream/element.py:2471-2475 | an element becoming ready keeps all invariants while its notifications are owed |
| SessionState.TellsRuntime | src/buildstream/element.py:2476-2479 | one runtime notification, in the middle of a cascade, keeps all invariants and leaves at most the told element to be looked at |
| SessionState.TellsBuild | src/buildstream/element.py:2484-2488 | one build notification keeps all invariants, up to the key and the callback of an element that just became buildable |
| Sessions.Session.UpdateReady | src/buildstream/element.py:2468-2493 | the recursive update settles everything, pays all its notifications and leaves outer ones alone, changes no strong key already set, and terminates |
| Sessions.Session.NotifyAll | src/buildstream/element.py:2475-2493 | both notification loops pay exactly the notifications the element owes |
| Sessions.Session.NotifyRuntime | src/buildstream/element.py:2476-2482 | tells one reverse runtime dependency, which may become ready in turn |
| Sessions.Session.NotifyBuild | src/buildstream/element.py:2484-2493 | tells one reverse build dependency, which gets its key and its callback if it is buildable |
| Sessions.Session.CachedSuccess | src/buildstream/element.py:1228-1244 | looks at the build result once and remembers it: with nothing remembered, true exactly for a cached artifact of a successful build; with a result remembered, that result |
| SessionState.SuccessMeans | src/buildstream/element.py:1228-1244 | the same for every state: what was found successful stays so; otherwise the artifact has to be cached, and the build result that was read first decides |
| SessionState.UnearnedFails | src/buildstream/element.py:2468-2473 | an element that is neither built nor ever loaded from an artifact of a successful build is not a success, and not ready |
| RunResults.FailureIsNotReady | src/buildstream/element.py:1237-1244 | at any step of any run, an element that was not built in it and whose artifact was never one of a successful build is not ready and counts as no success |
| RunResults.SucceededMeans | src/buildstream/element.py:1237-1244 | what a run has on record as successful are the elements that an event loaded from an artifact of a successful build, or noted as built |
| RunResults.EventsTakeEffect | src/buildstream/element.py:1535-1854 | which events take place in a run, and what each of them does |
| SessionResults.BuildableHasItsScope | src/buildstream/element.py:1264-1273 | whenever an element is buildable, everything in its full BUILD scope is ready, cached successfully and keyed, and its key calculation cannot return None |
| SessionResults.BuildableMeans | src/buildstream/element.py:1264-1273 | an element is buildable exactly if it is scheduled, has its sources, and its direct build dependencies are all ready |
| SessionResults.BuildableLacksKey | src/buildstream/element.py:1782-1784 | an element to be built lacks the strong key that caching asserts exactly if it was scheduled when the key could not be calculated and was passed over; otherwise both assertions before caching hold |
| SessionResults.FetchLeavesKeyUnknown | src/buildstream/element.py:1813-1816 | noting fetched sources makes an element buildable without a strong key exactly if it was scheduled when the key could not be calculated, and its sources were missing when its last build dependency became ready; the key could be calculated by then |
| SessionResults.KeyStaysUnknown | src/buildstream/element.py:3397-3425 | from then on nothing gives that element its key before it is assembled |
| SessionResults.KeyedWhenScheduled | src/buildstream/element.py:1615-1618 | an element scheduled with nothing else missing gets its strong key at once |
| RunResults.HistoryMeans | src/buildstream/element.py:1602-1618 | the two conditions are events of the run: one that scheduled the element while the key could not be calculated, and one that made its last build dependency ready while its sources were missing |
| RunResults.LacksKeyInRun | src/buildstream/element.py:1782-1784 | at any step of any run, an element to be built lacks its strong key exactly if both events took place |
| SessionRace.BuildableWithoutKey | src/buildstream/element.py:1813-1816 | a two element session in non-strict mode in which both happen, and an element is buildable without a key |
| SessionResults.NoWakeupIsLost | src/buildstream/element.py:2488-2493 | an element that waits for dependencies alone has one that is not ready and a callback to come; callbacks fire at most once per registration and find all build dependencies ready and the key set |
| Sessions.Session.CalculateStrongKey | src/buildstream/element.py:3409-3414 | with all build dependencies ready, the key calculated from the BUILD scope is not None |
| Sessions.Session.UpdateKeyNonStrict | src/buildstream/element.py:3397-3425 | sets the strong key once, from the cached artifact or from the BUILD scope; afterwards it is set whenever no pull is pending and the element is cached, or scheduled with all build dependencies ready |
| Sessions.Session.AnnounceBuildable | src/buildstream/element.py:2488-2493 | the key comes before the callback, and the element is still buildable when called back |
| Sessions.Session.CallBack | src/buildstream/element.py:2491-2493 | the callback is called once and forgotten |
| SessionState.ReadyScopeHasKey | src/buildstream/element.py:3409-3414 | ready build dependencies make the whole BUILD scope ready, so that no entry of the strong key is missing |
| SessionState.KeyAdded | src/buildstream/element.py:3402-3414 | a new strong key leaves every earlier strong key explained by its origin |
| SessionResults.StrongKeysAreStrict | src/buildstream/element.py:3397-3414 | if no element below adopted a key other than its strict key, the strong key is the strict key |
| SessionResults.RequiredIsLeast | src/buildstream/element.py:1535-1554 | the required elements are the least set with what events demanded that is closed under direct dependencies in the scope of the first requirement and under build dependencies of scheduled elements |
| SessionPlan.NeedsMeans | src/buildstream/element.py:1542-1546 | the direct dependencies that a required element requires in turn, scope by scope |
| SessionResults.RequiredInRunScope | src/buildstream/element.py:1545-1546 | with RUN scope only: closed under runtime dependencies and under build dependencies of scheduled elements, and least |
| RunResults.RequiredInRun | src/buildstream/element.py:1535-1554 | at any step of any run whose demands are in RUN scope, the required elements are that least set |
| RunResults.RequestedMeans | src/buildstream/element.py:1535-1541 | the elements on record as demanded are the demanded ones |
| RunResults.DemandedBeforeMeans | src/buildstream/element.py:1535-1541 | the demanded ones are those that an earlier event demands |
| RunResults.ScopeOfReason | src/buildstream/element.py:1535-1546 | the scope an element counts as required in is that of the event that first required it, or RUN if another element did |
| SessionResults.ScheduledIffNecessary | src/buildstream/element.py:1572-1594 | an element not assembled yet is scheduled exactly if it is required, its artifact state is known, no pull is pending and it is not cached successfully; only an artifact that is there, with no pull pending, has to be noted first |
| RunResults.ScheduledInRun | src/buildstream/element.py:1572-1594 | the same at any step of any run, with the loading of such an artifact ended by an event |
| Sessions.Session.SetRequired | src/buildstream/element.py:1535-1554 | requires an element and what follows from it, keeps the plan complete, and terminates on every finite graph, with or without cycles |
| Sessions.Session.ScheduleWhenNecessary | src/buildstream/element.py:1597-1618 | schedules what should be scheduled, requires its build dependencies and updates its key |
| Sessions.Session.ShouldSchedule | src/buildstream/element.py:1572-1594 | the decision, with its short cuts |
| SessionPlan.Requires | src/buildstream/element.py:1542-1546 | marking an element required keeps the plan, up to the dependencies of that element |
| SessionPlan.Schedules | src/buildstream/element.py:1608-1613 | marking an element scheduled keeps the plan and all readiness invariants, up to its key and its build dependencies |
| SessionEvents.LoadedArtifact | src/buildstream/element.py:1870-1977 | unless a pull is to follow, loading leaves an artifact object; no pull is pending after an attempt to pull; while building, failed artifacts are kept only under the strict key and never if failures are retried |
| Sessions.Session.FindArtifact | src/buildstream/element.py:1870-1977 | the look-up step by step; which artifact it chooses is the subject of the next lemmas |
| SessionEvents.StrictArtifactIsKept | src/buildstream/element.py:1881-1921 | an artifact found or pulled under the strict key is the one kept, unless it is a failure and failed builds are retried |
| SessionEvents.WeakArtifactIsKept | src/buildstream/element.py:1926-1976 | in non-strict mode with no strict artifact and no pull to follow, the artifact under the weak key is kept, the pulled one if a pull brought one, unless it is a failure to be discarded |
| SessionEvents.NothingIsFound | src/buildstream/element.py:1905-1929 | with nothing found, what is kept is not cached; or nothing is kept in non-strict mode while a pull is to follow |
| SessionEvents.PullFollows | src/buildstream/element.py:1891-1899 | a pull is to follow exactly if there was none, the strict artifact or its wanted build tree is missing, there are remotes, and no workspace; loading fails exactly if a pull does |
| SessionEvents.AfterLoadingMeans | src/buildstream/element.py:1921-1976 | what is kept becomes the artifact of the element with its key, and nothing else that is remembered changes |
| SessionEvents.AssembledKey | src/buildstream/element.py:3397-3404 | the key of a built element that had none is the one stored in its artifact |
| SessionEvents.AssembledSuccess | src/buildstream/element.py:1228-1244 | after a build, success is what the job said, or else the recorded build result, or else what is stored |
| Sessions.Session.LoadArtifact | src/buildstream/element.py:1888-1976 | stores what was found, with its key; the assertion at the end of loading can only fail after an error or while a pull is pending |
| Sessions.Session.LoadArtifactDone | src/buildstream/element.py:1840-1854 | the main thread follows up on a loaded artifact: key, readiness and schedule are complete again |
| Sessions.Session.AssembleDone | src/buildstream/element.py:1629-1648 | the main thread follows up on a build: the key is what it can be by then, and readiness is complete again |
| Sessions.Session.FetchDone | src/buildstream/element.py:1813-1816 | the main thread notes fetched sources and does nothing else |
| Sessions.Session.Require | src/buildstream/element.py:1535-1554 | an event requires an element: with its scope if it was not required before; loading, sources and assembly are not affected |
| Sessions.Session.EnqueueBuild | src/buildstream/_scheduler/queues/buildqueue.py:34-51 | skips what is cached successfully, never an element that was neither built nor loaded from an artifact of a successful build; takes exactly what is scheduled, has its sources and ready build dependencies; and registers the others for a callback |
| SessionEvents.InitialIsQuiet | src/buildstream/element.py:1125-1129 | a loaded session satisfies all invariants |
| SessionRuns.Open | src/buildstream/element.py:1054-1143 | loading: keys in dependency order, links in both directions, counters from list lengths |
| SessionRuns.QueryCache | src/buildstream/_stream.py:216-236 | after a cache query every element with a weak key has an artifact object or a pending pull, and loading is complete for all others |
| SessionRuns.QueryOne | src/buildstream/_stream.py:218-234 | an element with an artifact object is left alone; for others, whether sources are looked for depends on the artifact as in the source |
| SessionPlan.Advances | src/buildstream/element.py:1602-1618 | an element scheduled with nothing else missing gets its strong key at once, and nothing is undone |
| SessionRuns.RequireAll | src/buildstream/_stream.py:1786-1787 | exactly the chosen elements count as required by events |
| SessionRuns.Run | src/buildstream/element.py:1535-1854 | after any sequence of events all invariants hold, strong keys, readiness, the plan and its reasons are never undone, and each event has exactly its effect on loading, demands, fetched sources and assembly |
| RunResults.OpenAndRun | src/buildstream/element.py:1054-1143 | a project that is opened and run has such a run from the start |
| Dependencies.DependenciesCoverScope | src/buildstream/element.py:867-924 | for any targets sharing visited sets and each recursive scope: exactly the elements the scope covers, none twice, dependencies first on acyclic graphs |
| Dependencies.TargetsAreOneTraversal | src/buildstream/_pipeline.py:47-53 | sharing the visited sets makes the targets one traversal |
| DependencyOrder.TargetComesLast | src/buildstream/element.py:885-910 | the traversal of one element is that of its dependencies in the order they are listed, build dependencies before runtime ones, and then the element; in BUILD scope, that of its build dependencies |
| DependencyOrder.OneMoreTarget | src/buildstream/_pipeline.py:47-53 | a further target adds, behind all that came before, what is new of its own traversal, in that order |
| DependencyOrder.OneMoreBuildTarget | src/buildstream/_pipeline.py:47-53 | the same in BUILD scope |
| DependencyOrder.EarlierComesFirst | src/buildstream/element.py:896-910 | of two targets, or two dependencies of one element, the one listed earlier is yielded earlier, unless the later one is reached from it or from one before it |
| DependencyOrder.DirectComeAsListed | src/buildstream/element.py:872-883 | direct dependencies come in the order they are listed, build dependencies first, each where it is listed first |
| DependencyOrder.DirectOfOneMore | src/buildstream/_pipeline.py:34-53 | without recursion, each further target adds its direct dependencies |
| Dependencies.Pipeline | src/buildstream/_pipeline.py:47-53 | the generator over several targets is the traversal of which the lemmas above speak |
| Dependencies.Traversal.Visit | src/buildstream/element.py:885-910 | the recursive generator with its two visited sets is the traversal |
| Dependencies.Traversal.Recurse | src/buildstream/element.py:912-924 | the short circuit for targets covered already |
| Dependencies.DirectLists | src/buildstream/element.py:872-883 | direct dependencies in a scope, each once |
| Dependencies.DirectOfAllRepeats | src/buildstream/_pipeline.py:34-53 | without recursion, an element is yielded once exactly if no two targets share a direct dependency, although the documentation promises it always |
| Dependencies.SharedDependencyRepeats | src/buildstream/_pipeline.py:34-53 | two targets with one dependency, which is yielded twice |
| Planner.PlanIsCorrect | src/buildstream/_pipeline.py:322-352 | each reachable element once, with the greatest number of build dependencies on any path from a root on acyclic graphs, sorted stably by depth, dependencies first |
| Planner.ExploredRoots | src/buildstream/_pipeline.py:322-340 | the traversal records exactly the reachable elements and their greatest depths, and terminates on cyclic graphs too |
| Planner.SettledIsDeepest | src/buildstream/_pipeline.py:319-340 | a depth that no dependency contradicts is the maximum over all paths |
| Planner.SortRanks | src/buildstream/_pipeline.py:346 | the sort is by decreasing depth and stable |
| Planner.DepthOrderIsTopological | src/buildstream/_pipeline.py:342-352 | ties by order of completion make the depth order topological for runtime dependencies as well |
| Planner.TiesFollowTraversal | src/buildstream/_pipeline.py:322-346 | elements of the same depth come in the order of a plain traversal with runtime before build dependencies, on acyclic graphs |
| Planner.DepthPlanner.PlanElement | src/buildstream/_pipeline.py:322-340 | the traversal that revisits elements found deeper |
| Planner.DepthPlanner.Plan | src/buildstream/_pipeline.py:342-352 | the plan and the position of each element in it |
| Exceptions.ExceptElements | src/buildstream/_pipeline.py:183-230 | keeps exactly the elements reachable from a target along a path that touches no border element, each as often as it was there, in their order |
| Exceptions.BorderSearch.Find | src/buildstream/_pipeline.py:190-201 | finds the targeted elements first met on the way down from excepted elements |
| Exceptions.WalkAround | src/buildstream/_pipeline.py:211-221 | the worklist that avoids the border visits what is reachable around it |
| Exceptions.TargetSurvives | src/buildstream/_pipeline.py:214-219 | a target is kept exactly if it is not on the border itself |
| Exceptions.ExceptedTargetIsRemoved | src/buildstream/_pipeline.py:216-218 | a target that is excepted itself is removed, unlike the documentation says |
| Exceptions.ClosureSurvives | src/buildstream/_pipeline.py:151-153 | everything a target reaches survives exactly if it reaches no border element |
| Exceptions.DependencyOfTargetIsRemoved | src/buildstream/_pipeline.py:151-153 | a target below an excepted element that stays, and whose dependency goes, unlike the documentation says |
| Exceptions.KeepCounts | src/buildstream/_pipeline.py:230 | filtering keeps every occurrence of what survives and nothing else |
| Exceptions.KeepMeans | src/buildstream/_pipeline.py:230 | what is kept is a subsequence, with every occurrence of what survives |
| CacheKeys.StrictKeysAgree | src/buildstream/element.py:3364-3366 | two elements, possibly of different projects, have equal strict keys exactly if their descriptions, unfolded over the BUILD scope, are equal |
| CacheKeys.WeakKeysAgree | src/buildstream/element.py:3342-3360 | two weak keys are equal exactly if inputs, dependency names in order and weak descriptions of strict dependencies are |
| CacheKeys.WeakKeyIgnoresContents | src/buildstream/element.py:3342-3360 | without strict dependencies, the weak key depends on names only |
| CacheKeys.WeakKeyKnown | src/buildstream/element.py:3328-3360 | the weak key is known exactly if the element is resolved, the names in its BUILD scope are, and so are the weak keys of the strict ones: all in an element to be rebuilt strictly, otherwise those declared strict |
| CacheKeys.WeakKeyMeans | src/buildstream/element.py:3342-3360 | known weak keys are equal exactly if the inputs are, and the dependencies agree in order in name, in being strict, and if so in their weak keys |
| CacheKeys.StrictDependencyCounts | src/buildstream/element.py:3350-3358 | a change in the weak key of a strict dependency, declared so or because the element is to be rebuilt strictly, changes the weak key |
| CacheKeys.StrictKeyKnown | src/buildstream/element.py:3364-3366 | the strict key is known exactly if the element is resolved and the names and strict keys in its BUILD scope are known |
| CacheKeys.StrictKeyMeans | src/buildstream/element.py:3364-3366 | known strict keys are equal exactly if inputs and weak keys are, and the dependencies agree in order in name and strict key |
| CacheKeys.ChangePropagates | src/buildstream/element.py:3364-3366 | changing an element, its inputs, its build dependencies, their strictness or its name, changes the strict key of everything that builds on it |
| CacheKeys.SameKeySameScopes | src/buildstream/element.py:3364-3366 | an element that keeps its strict key builds on the same elements in the same order, with the same keys and descriptions, however the project has changed |
| CacheKeys.StrictKeyNeedsWeakKey | src/buildstream/element.py:3373-3375 | once the strict key is known so is the weak key, as asserted |
| CacheKeys.StrongKeyKnown | src/buildstream/element.py:2313-2316 | with the strong keys of the BUILD scope known, no dependency entry is incomplete |
| CacheKeys.StrongKeyIsStrict | src/buildstream/element.py:3409-3414 | a strong key calculated from strict keys is the strict key |
| CacheKeys.StrongKeyStays | src/buildstream/element.py:3397-3414 | a calculated strong key does not depend on keys that become known later |
| KeyLoading.KeyTable.UpdateCacheKeys | src/buildstream/element.py:3323-3379 | calculates whatever can be calculated of both keys of one element, and leaves those of the others alone |
| KeyLoading.KeyTable.LoadAll | src/buildstream/element.py:1361-1373 | any loading order with dependencies first gives every element its final keys |
| ArtifactRoundTrip.LoadedMirrors | src/buildstream/_artifactelement.py:71-98 | an element loaded from the artifact of another has the same dependencies in the same order, recursively |
| ArtifactRoundTrip.StagingOrderIsKept | src/buildstream/element.py:896-910 | the BUILD scope of a loaded element names the artifacts of the BUILD scope of the original, in staging order, if names are distinct |
| ArtifactRoundTrip.RecordedInOrder | src/buildstream/_artifact.py:297-303 | an artifact records project, name and key of each element of the BUILD scope in staging order, and its references are read in that order |
| ArtifactRoundTrip.BuiltIsUnblocked | src/buildstream/_artifactelement.py:93-98 | nothing blocks the loading of an artifact that is in the cache with all that it was built from, whatever else is there |
| ArtifactRoundTrip.LoadArtifactOf | src/buildstream/_artifactelement.py:71-98 | loading such an artifact succeeds and mirrors the element |
| ArtifactRoundTrip.DependencyIsFound | src/buildstream/_artifact.py:587-603 | the recorded reference of a dependency leads to its artifact if its normal name has no further dot |
| ArtifactLoading.Loader.NewFromArtifactName | src/buildstream/_artifactelement.py:72-98 | every name is instantiated once, with the dependencies its artifact names, in order; loading succeeds if no reference of the wrong format can be reached from this one through the artifacts in the cache, and if what was loaded before is complete and names lead to what they name, only then; what failed to load stays known, with dependencies missing |
| ArtifactLoading.CompleteIsUnblocked | src/buildstream/_artifactelement.py:93-98 | what is loaded completely can reach no reference of the wrong format |
| ArtifactLoading.FailsThenLoads | src/buildstream/_artifactelement.py:74-98 | an artifact with a dependency recorded without a key: loading fails, and succeeds the second time, without the dependency |
| ArtifactLoading.Loader.AddDependencies | src/buildstream/_artifactelement.py:93-96 | the recursive loop over recorded dependencies, up to the first that cannot be loaded |
| ArtifactLoading.InstantiateMeans | src/buildstream/_artifactelement.py:72-98 | a reference leads to the element of the strong key and with the dependencies of the artifact stored under its normalised name, or to one without dependencies if there is none |
| ArtifactNames.ReferenceNamesArtifact | src/buildstream/_artifact.py:594-597 | a recorded reference names the stored artifact exactly if the normal name has no further dot |
| ArtifactNames.DottedNameIsLost | src/buildstream/element.py:3442-3443 | the element a.b.bst: the recorded reference names a.b, and looking that up leads to another name than the one stored |
| ArtifactNames.StoredNameNamesArtifact | src/buildstream/element.py:3458-3464 | so does the name the artifact is stored under |
| ArtifactNames.NormalNameAgain | src/buildstream/element.py:3442-3443 | normalising twice changes a name exactly if it has a further dot |
| ArtifactNames.VerifyComposed | src/buildstream/_artifactelement.py:163-172 | taking a composed reference apart gives back its parts |
| ArtifactNames.VerifyRefMeans | src/buildstream/_artifactelement.py:163-172 | a reference has the format exactly if it is put together from two parts without slashes and 64 lower-case hexadecimal digits |
| ArtifactNames.RewrittenMeans | src/buildstream/element.py:3458-3464 | which characters of a name stay, and that all others become underscores |
| ArtifactNames.PathJoinMeans | src/buildstream/_artifact.py:594-597 | joined paths: the second alone if it is absolute, and otherwise exactly one slash between them |
| ArtifactStore.Artifact.QueryCache | src/buildstream/_artifact.py:615-635 | cached exactly if the ref exists and files, metadata, logs and the public data digest, set or not, are local |
| ArtifactStore.CompleteIsFound | src/buildstream/_artifact.py:627-630 | an artifact with all its blobs is found to be cached exactly if it has public data, or a digest that is not set counts as local |
| ArtifactStore.EssentialMeans | src/buildstream/_artifact.py:615-635 | which blobs an artifact needs to count as cached |
| ArtifactStore.Artifact.SetCached | src/buildstream/_artifact.py:670-673 | marks as cached what is |
| ArtifactStore.Artifact.Pull | src/buildstream/_artifact.py:684-699 | after a pull the artifact is cached and known by the keys of the object: all its own for a new object; for one that remembers keys, refs name artifacts by their own keys exactly if the new artifact has these too; otherwise nothing is reported cached that was not |
| ArtifactStore.Artifact.Cache | src/buildstream/_artifact.py:206-342 | stores blobs, then the artifact under its strong and weak key |
| ArtifactStore.ArtifactCache.Pull | src/buildstream/_artifactcache.py:154-222 | exactly when a pull is done, fails or finds nothing; at most the one ref changes, whatever happens |
| ArtifactStore.EndsMeans | src/buildstream/_artifactcache.py:414-457 | the attempt at one remote ends with the first thing that does not arrive: proto, files, what else is asked for, metadata and logs |
| ArtifactStore.MissingIsPassedBy | src/buildstream/_artifactcache.py:186-222 | an artifact that one remote has in full is pulled, whatever the remotes before it lack |
| ArtifactStore.ArtifactCache.PullArtifactStorage | src/buildstream/_artifactcache.py:414-457 | the ref is written as soon as the proto is there, if that succeeds; done means everything the artifact has is local |
| ArtifactStore.ArtifactCache.FindDigest | src/buildstream/_artifactcache.py:169-183 | the first index remote that knows the artifact decides |
| ArtifactStore.ArtifactCache.LinkKey | src/buildstream/_artifactcache.py:231-240 | another key for the same artifact; honest exactly if it is one of its own |
| ArtifactStore.HonestLinks | src/buildstream/_artifact.py:696-697 | linking all keys of an object keeps refs honest exactly if they are keys of the artifact |
| ArtifactStore.ArtifactCache.Remove | src/buildstream/_artifactcache.py:87-91 | a ref goes, blobs stay |
| ArtifactStore.Run | src/buildstream/_artifact.py:615-699 | through any run of queries, loads, builds and removals every ref names its artifact by one of its keys, and artifacts that report cached have all essential blobs |
| Overlaps.OverlapListMeans | src/buildstream/_overlapcollector.py:139-170 | a file has an overlap list exactly if some element of the session overwrote it; the list holds the writers; it has one entry exactly if the file was there before and had one writer |
| Overlaps.OverwroteMeans | src/buildstream/_overlapcollector.py:141-165 | overwriting happens exactly with two writers, or one and a file from before |
| Overlaps.WritersInOrder | src/buildstream/_overlapcollector.py:139-170 | the writers of a file are those that staged it, all of them, in staging order |
| Overlaps.ForbiddenMeans | src/buildstream/_overlapcollector.py:192-212 | an overlap is forbidden exactly if some writer but the first is not whitelisted for the file |
| Overlaps.ExternalMeans | src/buildstream/_overlapcollector.py:192-200 | a file of an earlier session that is overwritten by the one element of this session that writes it |
| Overlaps.ExplainsMeans | src/buildstream/_overlapcollector.py:269-279 | who is held responsible for a file of an earlier session |
| Overlaps.OverlapCollectorSession.CollectStageResult | src/buildstream/_overlapcollector.py:139-170 | keeps every overlap list equal to the writers of the file in staging order |
| Overlaps.OverlapCollectorSession.FindBottom | src/buildstream/_overlapcollector.py:152-158 | finds the bottom-most writer |
| Overlaps.SearchStageElement | src/buildstream/_overlapcollector.py:269-279 | finds the most recent session that staged a file and its first element that did, exactly if there is one |
| Overlaps.OverlapCollector.EndSession | src/buildstream/_overlapcollector.py:187-249 | external overlaps are the files of earlier sessions that exactly one element wrote; each is explained if only staged files are there; what is reported before an error, which of the three reports is one, and that an unexplained file is; an error keeps the session open |
| Overlaps.OverlapCollector.Warnings | src/buildstream/_overlapcollector.py:192-212 | which overlaps within the session are reported, and which are left to the earlier sessions |
| SourceFetching.ElementSources.FetchSources | src/buildstream/_elementsources.py:235-251 | afterwards every source before the stop position can be staged; the stop position decreases in every recursion; dependent sources are fetched exactly as often as Fetches says; where nothing fails by itself, it succeeds exactly if no missing source needs previous ones in an absolute directory |
| SourceFetching.MissingFetchedOnce | src/buildstream/_elementsources.py:242-251 | only missing sources should be fetched: each is fetched once exactly if no missing source that is fetched on top of previous ones comes after a missing dependent one |
| SourceFetching.FetchesDouble | src/buildstream/_elementsources.py:235-251 | because a source found missing stays marked as missing, each further source fetched on top of previous ones doubles the number of fetches |
| SourceFetching.ElementSources.FetchSource | src/buildstream/_elementsources.py:415-436 | a plain source ends up in the source cache, and always does where nothing fails by itself |
| SourceFetching.ElementSources.FetchOriginalSource | src/buildstream/_elementsources.py:444-449 | a dependent source is fetched on top of the previous ones: where nothing fails by itself, exactly if its directory is not absolute and the previous ones can be fetched |
| SourceFetching.ElementSources.StagePreviousSources | src/buildstream/_elementsources.py:492-504 | the directory of previous sources is what staging reached before this source; an absolute directory cannot be opened |
| SourceFetching.ElementSources.Stage | src/buildstream/_elementsources.py:458-486 | staging is the fold of the sources in order |
| SourceFetching.PreviousSourcesArePrefix | src/buildstream/_elementsources.py:458-504 | staging all sources passes through what a source saw when it was fetched, and stages it in that directory |
| SourceFetching.DirectoryIsReplaced | src/buildstream/_elementsources.py:467-470 | staging into a subdirectory replaces it and nothing else |
| SourceFetching.PlainSourceIsStaged | src/buildstream/_elementsources.py:458-486 | where directories hold nothing but files, a plain source puts its files below its directory, in the place of others of the same name, and changes no other file |
| SourceFetching.DependentSourceIsStaged | src/buildstream/_elementsources.py:458-486 | a source that depends on previous ones sees what is in its directory, replaces it by what it makes of that, and changes nothing else |
| SourceFetching.ElementSources.Fetch | src/buildstream/element.py:2283-2296 | however the sources of an element become available, they are the fold of all of them; where nothing fails by itself they do if all that is missing can be fetched, and when originals are asked for or there are no remotes and nothing is stored, only then |
| SourceFetching.AbsoluteDirectory | src/buildstream/_elementsources.py:492-497 | two missing sources, the second on top of the first: fetching succeeds exactly if its directory is written without a slash |
| SourceFetching.ElementSources.PullAll | src/buildstream/_elementsourcescache.py:73-137 | the status of pulling all sources together is determined by the first index remote that knows them and the storage remotes in turn; what is stored is right, whatever happens |
| SourceFetching.TogetherStatusMeans | src/buildstream/_elementsourcescache.py:112-137 | files arrive exactly if some remote has them all and no remote before it fails; otherwise a failure counts |
| SourceFetching.ElementSources.FetchDone | src/buildstream/_elementsources.py:153-159 | takes note of fetched sources |
| SourceFetching.ElementSources.IsCached | src/buildstream/source.py:1507-1533 | remembers the first answer |
| SourceCaches.SourceCache.Pull | src/buildstream/_sourcecache.py:107-145 | all index remotes are asked and the last one decides; the ref is stored before files arrive |
| SourceCaches.LastIndexRemoteDecides | src/buildstream/_sourcecache.py:117-127 | a source known to some index remote and complete in storage is pulled exactly if the last index remote knows it |
| SourceCaches.KnownSourceIsNotPulled | src/buildstream/_sourcecache.py:117-127 | a known source, complete in storage, that is not pulled because a second index remote does not know it |
| SourceCaches.StorageStatusMeans | src/buildstream/_sourcecache.py:129-145 | storage remotes are tried until one has everything or one fails |
| SourceCaches.SourceCache.Commit | src/buildstream/_sourcecache.py:69-81 | a committed source is contained |
| Describe.ParseUndoesRender | src/buildstream/_version.py:328-362 | parsing prefix and printed line gives back tag, distance, revision and flag exactly if the tag is not empty |
| Describe.RenderUndoesParse | src/buildstream/_version.py:572-589 | printing gives back the parsed line exactly if the tag has more than the prefix, the distance no leading zero, and no newline follows |
| Describe.MatchIsUnique | src/buildstream/_version.py:341 | the pattern has at most one match, hyphens in the tag notwithstanding |
| Describe.MatchesMeans | src/buildstream/_version.py:341 | what the pattern matches: a tag, a distance of decimal digits and a revision of hexadecimal ones, with an optional newline |
| Describe.RevisionIsThatOfHead | src/buildstream/_version.py:363-366 | without a tag, the distance is the number of all commits and the revision that of HEAD |
| Describe.GitPieces | src/buildstream/_version.py:328-368 | fills in the pieces one by one |
| Describe.DecimalOfNumber | src/buildstream/_version.py:359 | reading and printing a distance changes it exactly if it has leading zeros |

## Left out

- Queues and job threads: their calls are events in any order, so nothing is said about
  what eventually happens.
- The callbacks of the pull and fetch queues: only the callback of the build queue is
  part of the model.
- Elements made from artifacts in a session: they have no counters and no reverse
  dependencies.
- A dependency graph that grows during a session, and tracking, which changes keys.
- Sessions.Session.AssembleDone: does not say what a build puts into its artifact, which
  is a parameter; the workspace bookkeeping that follows is left out.
- Pushing artifacts and sources: a remote may be updated although blobs are missing, so
  there is no unconditional property to state.
- Pulling artifacts that are to be loaded by name: an artifact that is not in the cache
  has no dependencies, as in the source before a pull.
- Overlaps.OverlapCollector.EndSession: messages and the order of reported files are left
  out.
- SourceFetching.ElementSources.Stage: a directory is the map of its files; empty
  directories, file properties and clashes between files and directories are left out.
- Describe.GitPieces: digits are those of ASCII; branch names and dates are left out.
- Sandboxes, YAML, variables, options, includes, the command line and everything that
  speaks a wire protocol.
