# Verified models of skelm's core

skelm runs workflows whose steps call language models and tools: a gateway keeps conversations in a shared store,
triggers start runs, agents run under permission policies that narrow as they delegate, and a native agent loop drives
a model under budgets. This project models the parts where something can go wrong across many steps, and proves what
holds for every input, every run or every interleaving. Where the code does not do what its own comments say, the model
follows the code, a lemma exhibits the input, and another says exactly when the promise is kept.

The Dafny files follow the program's components; `dafny verify dfyconfig.toml` verifies all of them.

| file | component |
|---|---|
| `SessionLock`, `SessionTurns`, `SessionRecords`, `SessionStore` | the advisory lock on a durable conversation: any number of replicas, any interleaving |
| `FsPath`, `Matchers`, `Executables`, `Policy`, `Layers`, `LayerTools`, `LayerRoots`, `Resolution`, `Delegation` | the permission algebra: enforcement, layer resolution, delegation |
| `Budgets`, `Transcript`, `AgentLoop`, `AgentRuns`, `AgentOutcomes` | the native agent loop, its accounting and its transcript, within and across runs |
| `Triggers.dfy` | reconciling declared triggers with the coordinator |
| `Strings`, `TextEdit`, `TextReplace`, `Capture` | read_file, edit_file and the capped output capture |
| `DocsReach.dfy` | the docs reachability guard |
| `Routing`, `Flattening` | the failover router, the capabilities it advertises, and when nesting it is flattening |
| `StrictSchema.dfy` | the strict JSON Schema rewrite |
| `Steps`, `WaitPlacement`, `BuilderAnswers`, `BackendDefaults` | the step builders, and the tree passes over what they build |
| `EventBus.dfy` | the per-run event index and sequence numbers |
| `Semaphore`, `ChatQueue` | the FIFO gates |
| `CodexStream.dfy` | consuming a turn's event stream |
| `Common.dfy` | Option and Result |

Code that works step by step is modelled as methods and classes, each proved against a function of its inputs or of the
old state; the laws are lemmas about those functions. Protocols are state machines: an action that is not enabled
changes nothing, so every list of actions is a run. The language model, tools, validators, clocks, the file system and
link extraction are arbitrary inputs.

## Where the code and its documentation differ

For each difference a lemma exhibits an input or a run, and another says exactly when the promise is kept.

- Stale reclaim (`packages/core/src/persistent-workflow-store.ts:98-105`): the comment says a holder that outlives the
  window sees a lost compare-and-swap. Save and release are blind writes, so it overwrites the reclaiming owner's turn
  and puts its own lock back (`LateSaveOverwrites`, `OverstayingHolderLosesATurn`). Exclusion is lost at exactly those
  reclaims (`ExclusionIsLostOnlyToALiveReclaim`), and a run loses no turn exactly when every save and release finds in
  the store the turns it starts from (`NoTurnIsLostIff`).
- Store keys: `workflow::key` is not injective (`DistinctSessionsShareAKey`, `KeysCollideIff`).
- edit_file: a single replacement goes through `String.replace`, which expands `$` patterns; replaceAll does not
  (`DollarsAreExpandedInSingleMode`). The two agree on every file exactly when the replacement is free of those patterns
  (`PathsAgreeIff`). "Must occur exactly once" counts occurrences that do not overlap (`BorderedIsAmbiguous`), so it
  rules out a second target for all files exactly when the text cannot overlap itself (`UnambiguousIff`).
- File roots: the root `/` admits nothing below it (`NothingIsUnderTheSlashRoot`, `SlashRootAdmitsOnlyItself`).
  Delegation keeps only roots that both sides list, so a child's narrower root under the parent's is lost
  (`NestedRootIsLost`, `SharedRootsAreExactIff`), and so is a step's under the defaults' (`NarrowerLayerIsLost`,
  `LayersLoseNoPathIff`).
- Delegation: approval gates are said to be unioned; those of an unrestricted parent are dropped
  (`UnrestrictedParentDropsItsGates`, `GatesAreUnionedIff`).
- Layers are said to be intersected, so that nothing widens; a step's approval replaces the defaults'
  (`StepApprovalReplacesTheDefaults`, `GatedByTheLastLayer`). Tool layers are intersected structurally, which is below
  the semantic meet (`StructuralIsNotMeet`, `StructuralMatches`).
- Trigger reconcile: duplicate ids are registered again on every sync (`DuplicatesNeverSettle`, `SecondSyncIsQuietIff`);
  an operator registration that shares a declared id with another spec is replaced (`OperatorScheduleIsReplaced`,
  `OperatorRegistrationSurvivesIff`); edits to a trigger's input or callback are not seen as drift
  (`EditedInputIsIgnored`, `DeclarationIsInstalledIff`); a workflow that fails to load loses the registrations it
  declared before (`FailedLoadUnregisters`, `DeclaredRegistrationSurvivesIff`).
- The number a sync returns is said to be that of the currently armed declared triggers. A trigger that failed to arm
  counts from the next sync on (`FailureCountsAsArmed`, `SecondSyncCountsFailures`), and on a first sync one whose
  second declaration fails after the first was armed (`ClashIsOvercountedIff`). From any registrations the number is
  never too small, and right exactly when no id is overcounted (`ReturnedCountIsRightIff`); an id declared once is,
  exactly when an equal spec was registered before and had failed (`OnlyDeclarationIsCountedRightIff`).
- Strict schemas: a field named "properties" makes the rewrite take the object of fields for a schema node
  (`AFieldCalledProperties`, `RequiredAreThePropertiesIff`).
- Docs guard: the test meant for assets lets images through (`ImagesAreFollowed`) and drops only links that end in a dot
  (`FilterDropsOnlyTrailingDots`).
- Event bus: subscribers are said to run in registration order; global ones always run first (`LaterGlobalGoesFirst`,
  `RegistrationOrderIff`). Numbers are said to be monotonic within a run; they restart after its terminal event
  (`LateEventRepeatsANumber`), so they increase exactly when no numbered event comes after a terminal one that is, or
  follows, a numbered event (`NumbersIncreaseIff`).
- Agent sessions: an answer that a hard output validator rejects has already been saved (`RefusedAnswerIsResumedFrom`,
  `RejectedAnswerIsSaved`).
- Routing: with one `retryable` throughout, nesting is flattening (`NestingIsFlattening`); with different ones it need
  not be (`MixedRetryablesDoNotFlatten`). A tree behaves like one wrapper that refuses a given set of errors, whatever
  the providers answer, exactly when every wrapper with a choice refuses just that set; if the set is all errors,
  whatever stands behind a sibling that has the method does not matter, for no failure gets past that sibling
  (`FlattensForAllAnswersIff`).
- Codex stream: a message that does not extend the one before it makes the deltas say more than the final text
  (`FreshMessageIsHandedOutWhole`, `DeltasAreTheTextIff`).

## Model

| member | source | states |
|---|---|---|
| `SessionLock.MutualExclusion` | packages/core/src/persistent-workflow-store.ts:89-175 | over every interleaving of acquires, saves, releases and crashes in which nobody acts under a lock past the staleness window, at most one owner acts under the lock and the stored record names it |
| `SessionLock.NoTurnIsLost` | packages/core/src/persistent-workflow-store.ts:89-175 | in such runs the stored conversation is every saved turn in order, and an acquire hands out exactly that conversation and its count |
| `SessionLock.LogOnlyGrows` | packages/core/src/persistent-workflow-store.ts:89-96 | the record of saved turns is only ever extended |
| `SessionLock.ExclusionIsLostOnlyToALiveReclaim` | packages/core/src/persistent-workflow-store.ts:131-148 | one step breaks exclusion if and only if it is a compare-and-swap that takes the lock from somebody still acting under it |
| `SessionLock.LiveReclaimMakesTwoHolders` | packages/core/src/persistent-workflow-store.ts:131-148 | such a step leaves two owners acting under locks |
| `SessionLock.TimelyRulesOutLiveReclaim` | packages/core/src/persistent-workflow-store.ts:133-141 | the staleness guard excludes such steps while no holder overstays |
| `SessionLock.TimelyRunIsExclusive` | packages/core/src/persistent-workflow-store.ts:89-175 | the full invariant: every write a holder may still make carries all saved turns and its own lock |
| `SessionLock.SessionIdentityIsStable` | packages/core/src/persistent-workflow-store.ts:59-74 | in every run, stale reclaims included, a record is never dropped and its workflow, key, sessionId and createdAt never change |
| `SessionLock.AcquireReplacesOnlyFreeOrStale` | packages/core/src/persistent-workflow-store.ts:131-159 | in every run the record a winning acquire replaces was at that instant absent, unlocked, its own or stale, and its conversation is kept |
| `SessionTurns.UninterruptedAcquire` | packages/core/src/persistent-workflow-store.ts:122-159 | with nothing in between, an acquire succeeds exactly when the guard admits the stored record, and locks that record |
| `SessionTurns.UninterruptedSave` | packages/gateway/src/triggers/persistent-workflow-turn.ts:194-203 | a turn's save stores the held record with that turn appended and counted |
| `SessionTurns.OverstayingHolderLosesATurn` | packages/core/src/persistent-workflow-store.ts:97-106 | a concrete run in which a late holder is not refused: two owners hold and a saved turn is gone |
| `SessionTurns.LateSaveOverwrites` | packages/core/src/persistent-workflow-store.ts:89-175 | for any owners, clock and window: after a stale reclaim the late holder's blind save discards the new owner's turn and restores the late lock |
| `SessionTurns.SaveKeepsTurnsIff` | packages/core/src/persistent-workflow-store.ts:89-96 | in every run a save keeps every turn saved before it exactly when the store still has the turns its owner acquired |
| `SessionTurns.ReleaseKeepsTurnsIff` | packages/core/src/persistent-workflow-store.ts:162-175 | a release keeps them exactly when the store still has the turns it read |
| `SessionTurns.NoTurnIsLostIff` | packages/core/src/persistent-workflow-store.ts:89-175 | over every run, overstaying holders included, no turn is lost exactly when every save and release that reaches the store finds there the turns it starts from |
| `SessionRecords.WinnerStoresItsRecord` | packages/core/src/persistent-workflow-store.ts:122-159 | in every run the record a winning acquire stores and hands out is, field by field, a fresh one of this session or the stored one, under the winner's lock dated at its own check |
| `SessionRecords.FirstAcquire` | packages/core/src/persistent-workflow-store.ts:59-74 | the first acquire of a conversation, uninterrupted: the stored and held record, field by field |
| `SessionRecords.SavesGoBackToTheirKey` | packages/core/src/persistent-workflow-store.ts:89-96 | in every run the stored record, and every record about to be saved, names this workflow and conversation, so a save goes to the key that was read |
| `SessionRecords.ActionsKeepToTheirOwner` | packages/core/src/persistent-workflow-store.ts:89-175 | a step that is not possible changes nothing, and one that is leaves every other owner where it was |
| `SessionRecords.UninterruptedRelease` | packages/core/src/persistent-workflow-store.ts:162-175 | a release, after a turn or without one, clears its caller's own lock and changes nothing else |
| `SessionRecords.FailedSave` | packages/gateway/src/triggers/persistent-workflow-turn.ts:203-215 | a save that fails writes nothing and leads to the release |
| `SessionRecords.CrashedLockIsRecovered` | packages/core/src/persistent-workflow-store.ts:108-121 | after a crash the next acquire is refused exactly while the lock is another owner's and within the window; otherwise it takes over the session with its conversation |
| `SessionStore.PrepareAcquire` | packages/core/src/persistent-workflow-store.ts:122-147 | proposes a fresh record of this session, every field stated, or the stored record under the caller's lock, as the protocol's first two steps do; otherwise reports the current owner |
| `SessionStore.CommitAcquire` | packages/core/src/persistent-workflow-store.ts:148-159 | the compare-and-swap wins exactly when the store still holds the record read; otherwise nothing changes and the owner now seen is reported |
| `SessionStore.SaveSession` | packages/core/src/persistent-workflow-store.ts:89-96 | a blind write of the caller's record under its own key |
| `SessionStore.ReleaseSession` | packages/core/src/persistent-workflow-store.ts:162-175 | clears the caller's lock and nothing else; a caller without the lock changes nothing |
| `SessionStore.KeysCollideIff` | packages/core/src/persistent-workflow-store.ts:54-56 | two workflow ids can share a store key exactly when one, followed by "::", is a prefix of the other |
| `SessionStore.KeyDeterminesSessionKey` | packages/core/src/persistent-workflow-store.ts:54-56 | within one workflow the key is injective |
| `SessionStore.DistinctSessionsShareAKey` | packages/core/src/persistent-workflow-store.ts:54-56 | two different sessions with one key |
| `FsPath.RootAdmitsIffWithin` | packages/core/src/permissions.ts:635-661 | the string test on normalised paths admits a path exactly when its collapsed segments extend the root's |
| `FsPath.RenderedPrefixIffWithin` | packages/core/src/permissions.ts:643-649 | for collapsed segment lists, equality or prefix up to a separator of the rendered strings is prefix of the lists |
| `FsPath.SegmentsAreClean` | packages/core/src/permissions.ts:658-661 | collapsing leaves no empty, "." or ".." segment and no separator |
| `FsPath.NormalizeIsIdempotent` | packages/core/src/permissions.ts:658-661 | normalising again changes nothing, and keeps the segments |
| `FsPath.SlashRootAdmitsOnlyItself` | packages/core/src/permissions.ts:644-648 | the root "/" admits exactly the paths that collapse to "/" |
| `FsPath.NothingIsUnderTheSlashRoot` | packages/core/src/permissions.ts:644-648 | no path with a segment is admitted by the root "/" |
| `FsPath.SegmentsOfChild` | packages/core/src/permissions.ts:654-661 | naming something in a directory adds one segment |
| `FsPath.SegmentsOfHere` | packages/core/src/permissions.ts:654-661 | a trailing "/." or "/" adds none |
| `FsPath.SegmentsOfParent` | packages/core/src/permissions.ts:654-661 | a trailing "/.." takes the last segment off, and leaves "/" where it is |
| `FsPath.DetourIsIgnored` | packages/core/src/permissions.ts:643-661 | for every root, a path through a directory and up again is admitted exactly when the direct path is |
| `FsPath.LeavingTheRoot` | packages/core/src/permissions.ts:643-661 | every root but "/" admits itself and its children; going up from it leads out, unless its own name follows |
| `FsPath.LeavingTwice` | packages/core/src/permissions.ts:643-661 | going up twice from a root of two segments or more leads out, whatever is named next |
| `FsPath.TraversalIsDenied` | packages/core/src/permissions.ts:654-657 | "/srv/app" does not admit "/srv/app/../../etc" |
| `Matchers.IntersectResolvedMatchers` | packages/core/src/permissions.ts:397-423 | the loops compute the meet |
| `Matchers.MeetIsExact` | packages/core/src/permissions.ts:397-423 | the meet matches an id exactly when both matchers do, for every mix of ids, prefixes and star |
| `Matchers.UnionIsExact` | packages/core/src/permissions.ts:425-438 | the union matches an id exactly when either does |
| `Matchers.NormalizeToolMatcher` | packages/core/src/permissions.ts:763-785 | the loop over an author's list computes the resolved matcher |
| `Matchers.ListedMeaning` | packages/core/src/permissions.ts:763-800 | a list matches an id exactly when one of its entries is "*", a prefix pattern of the id, or the id |
| `Matchers.IntersectToolMatchers` | packages/core/src/permissions.ts:721-739 | the loop over layers computes the structural intersection |
| `Matchers.StructuralMatches` | packages/core/src/permissions.ts:721-739 | it matches an id exactly when all layers have the star, all list the id, or all list one common prefix of it |
| `Matchers.StructuralIsLowerBound` | packages/core/src/permissions.ts:721-739 | whatever it matches, every layer matches |
| `Matchers.StructuralIsNotMeet` | packages/core/src/permissions.ts:721-739 | a star layer over a list leaves nothing, although both match the listed id |
| `Matchers.UnionToolMatchers` | packages/core/src/permissions.ts:741-761 | the loop over layers computes the union of denials |
| `Matchers.UnionAllIsExact` | packages/core/src/permissions.ts:741-761 | it matches an id exactly when some defining layer does |
| `Executables.EntryIsMeet` | packages/core/src/permissions.ts:703-719 | two entries meet in e exactly when e is one of them and both cover it, by equality or by the bare name of a path |
| `Executables.IntersectExecutables` | packages/core/src/permissions.ts:684-701 | the nested loops compute the pairwise intersection over the layers present |
| `Executables.IntersectionMeaning` | packages/core/src/permissions.ts:684-701 | an entry survives exactly when some layer lists it and every layer covers it |
| `Executables.LayerOrderIsIrrelevant` | packages/core/src/permissions.ts:684-701 | the resulting set does not depend on the order of the layers |
| `Executables.BareName` | packages/core/src/permissions.ts:703-716 | the bare name of a path is what follows its last separator, "/" or a backslash; a name without one is bare |
| `Policy.FsAccessIffWithinSomeRoot` | packages/core/src/permissions.ts:627-651 | a restricted policy allows a read or write exactly when the path's segments extend those of some listed root |
| `Policy.IntersectAgentmemoryIsExact` | packages/core/src/permissions.ts:448-461 | the memory intersection allows an operation exactly when both sides do |
| `Policy.NarrowNetworkIsExact` | packages/core/src/permissions.ts:814-821 | the narrower network policy allows a host exactly when both do |
| `Policy.DenialsNameTheirReason` | packages/core/src/permissions.ts:525-651 | a denial names the dimension of the request and the list that decided it |
| `Policy.UnrestrictedAllowsEverything` | packages/core/src/permissions.ts:525-651 | with the bypass every request is allowed |
| `Delegation.MeetIsBothAllow` | packages/core/src/permissions.ts:353-382 | for every request but file access, the bounded policy allows exactly what ceiling and child both allow |
| `Delegation.FsMeetMeaning` | packages/core/src/permissions.ts:375-376 | for files it allows exactly what a root listed by both admits |
| `Delegation.MeetIsLowerBound` | packages/core/src/permissions.ts:353-382 | it never allows what either side denies |
| `Delegation.SharedRootsAreExactIff` | packages/core/src/permissions.ts:440-446 | keeping common roots loses nothing exactly when wherever roots nest a common root covers the inner one |
| `Delegation.NestedRootIsLost` | packages/core/src/permissions.ts:440-446 | a child's narrower root under the parent's is lost |
| `Delegation.BypassFollowsTheHead` | packages/core/src/permissions.ts:346-359 | at any depth the effective policy is unrestricted exactly when the head is |
| `Delegation.UnrestrictedCeiling` | packages/core/src/permissions.ts:357-359 | an unrestricted ceiling hands on its bypass and changes nothing else of the child |
| `Delegation.ProfileNamesAreUnioned` | packages/core/src/permissions.ts:360-382 | the bound records the profiles that shaped either side |
| `Delegation.ChainAllowsWhatAllAllow` | packages/core/src/permissions.ts:353-382 | below a restricted head, outside the file system, the last agent may do exactly what every policy on the chain allows |
| `Delegation.ChainFsMeaning` | packages/core/src/permissions.ts:353-382 | a file access needs one admitting root that every policy on the chain lists |
| `Delegation.DelegationOnlyNarrows` | packages/core/src/permissions.ts:339-382 | at any depth a permission implies the effective permission of every ancestor and the agent's own policy |
| `Delegation.UnionApprovalMeaning` | packages/core/src/permissions.ts:463-480 | approval gates the dimensions either side gates, and remembers for the shorter time |
| `Delegation.GatesAreUnionedIff` | packages/core/src/permissions.ts:346-382 | a gate of either side binds the bounded policy exactly unless the ceiling is unrestricted, gates the dimension and the child does not |
| `Delegation.UnrestrictedParentDropsItsGates` | packages/core/src/permissions.ts:357-359 | below an unrestricted parent a child that gates nothing is gated in nothing |
| `Delegation.ChainGates` | packages/core/src/permissions.ts:463-480 | a dimension is gated exactly when somebody on the chain gates it |
| `Delegation.ChainRemembersShortest` | packages/core/src/permissions.ts:463-480 | the remembered time is the least anybody on the chain asks for |
| `Layers.IntersectStrings` | packages/core/src/permissions.ts:665-682 | the loop keeps exactly the entries every defining layer lists, and none if no layer defines the field |
| `Layers.ExpandLayerExecutables` | packages/core/src/permissions.ts:320-337 | expands a layer's profiles, narrows by its own list, and fails on the first unknown profile |
| `Layers.IntersectNetworkMeaning` | packages/core/src/permissions.ts:802-812 | the network policy of the layers allows a host exactly when there is a layer and all of them do |
| `Layers.FoldMemoryMeaning` | packages/core/src/permissions.ts:492-523 | the memory policy allows an operation exactly when there is a layer and all of them do; "deny" ends the walk |
| `Layers.ConjunctiveDimensionsAreExact` | packages/core/src/permissions.ts:271-315 | servers, skills, secrets, network and memory: allowed exactly when some layer defines the field and every defining layer allows |
| `Layers.ExecutablesAreExact` | packages/core/src/permissions.ts:271-337 | executables: allowed exactly when some expanded layer lists the entry and every defining layer covers it |
| `Layers.StructuralLayersBound` | packages/core/src/permissions.ts:721-739 | tools and delegation targets: what is matched is matched by every defining layer, and some layer defines the field |
| `LayerTools.ToolsAndTargetsAreExact` | packages/core/src/permissions.ts:300-305 | tools, built-in tools and delegation targets, without the bypass: allowed exactly when no layer denies and the defining layers all have the star, all list the id, or all list one prefix of it, as their authors wrote them |
| `LayerTools.NormalizedSays` | packages/core/src/permissions.ts:763-800 | an author's matcher, as a list or spelled out, matches an id exactly by its star, by the id, or by a prefix of it |
| `Layers.DenialsAreUnioned` | packages/core/src/permissions.ts:741-761 | a tool is denied exactly when some layer denies it |
| `Layers.FsBound` | packages/core/src/permissions.ts:627-682 | an admitted path is admitted by every layer that lists roots, and some layer does |
| `LayerRoots.LayersLoseNoPathIff` | packages/core/src/permissions.ts:665-682 | reads and writes: resolution allows exactly what every layer with a root list admits, if and only if every listed root that all those layers cover lies under a root they all list |
| `LayerRoots.NarrowerLayerIsLost` | packages/core/src/permissions.ts:665-682 | of two layers with one root each, one under the other, nothing is left |
| `Layers.ResolutionIsALowerBound` | packages/core/src/permissions.ts:271-315 | for any layers: whatever their combination allows without the bypass, every defining layer allows and no layer denies; a field nobody defines denies |
| `Layers.ResolvedIsALowerBound` | packages/core/src/permissions.ts:266-315 | the same of whatever defaults, profile and step resolve to |
| `Layers.FindLastDefined` | packages/core/src/permissions.ts:823-828 | the loop from the end finds the last defined field |
| `Layers.GatedByTheLastLayer` | packages/core/src/permissions.ts:310 | a dimension is gated exactly when the last layer that says anything about approval gates it |
| `Layers.StepApprovalReplacesTheDefaults` | packages/core/src/permissions.ts:266-315 | a step that states its own approval drops the defaults' gates |
| `Layers.BypassTakesTwoKeys` | packages/core/src/permissions.ts:288-292 | unrestricted exactly when the operator grants it and the defaults, the profile or the step asks for it |
| `Layers.ResolutionFailsIff` | packages/core/src/permissions.ts:271-337 | resolution fails exactly on an unknown permission profile or an unknown executable profile in some layer |
| `Resolution.LayersInOrder` | packages/core/src/permissions.ts:276-288 | the layers are the defaults, the named profile and the step without its profile, in that order, as far as they are there |
| `Resolution.ResolvedFromLayers` | packages/core/src/permissions.ts:296-316 | the resolved policy is the combination of exactly these layers, so the exact conditions on combined layers hold of it |
| `Resolution.ExpansionMeaning` | packages/core/src/permissions.ts:319-339 | a layer grants its list, or what its profiles list, or with both what either lists and both cover |
| `Resolution.ErrorNamesTheFirst` | packages/core/src/permissions.ts:276-336 | the error names the step's unknown profile, or else the first undefined executable profile of the first layer with one |
| `Resolution.RecordedFields` | packages/core/src/permissions.ts:294-313 | the policy records the executable profiles of all layers, and the last stated approval, whole |
| `Budgets.BudgetTracker.AddUsage` | packages/core/src/budgets.ts:116-124 | adds the tokens and the cost of one usage report |
| `Budgets.BudgetTracker.CheckBudget` | packages/core/src/budgets.ts:131-153 | reports the first exceeded ceiling, and none exactly when all totals and the elapsed time are within theirs |
| `Budgets.ReportedTokens` | packages/core/src/budgets.ts:116-124 | input and output tokens both count, as far as a report states them |
| `Budgets.ReportedCost` | packages/core/src/budgets.ts:162-175 | with prices a thousand tokens cost their price, proportionally, whatever the provider says; without, what the provider says |
| `Budgets.FirstExceeded` | packages/core/src/budgets.ts:131-153 | the ceiling reported is exceeded and none looked at before it is, in the order tokens, cost, calls, clock |
| `Transcript.OpenAIToSessionMessages` | packages/agent/src/backend.ts:318-349 | the saving loop computes the saved form |
| `Transcript.SessionMessagesToOpenAI` | packages/agent/src/backend.ts:285-316 | the loading loop computes the loaded form |
| `Transcript.TextOfContent` | packages/agent/src/backend.ts:322-333 | the text of a message is its text parts in order, without its images |
| `Transcript.SavingIsMessagewise` | packages/agent/src/backend.ts:318-349 | saving goes message by message, field by field, without system turns |
| `Transcript.LoadingIsMessagewise` | packages/agent/src/backend.ts:285-310 | loading likewise: calls only on assistant turns, call ids only on tool results, no stored system turn |
| `Transcript.PlainSurvives` | packages/agent/src/backend.ts:285-349 | one message survives a save and a load exactly when it is plain: text, function calls, ids only on tool results |
| `Transcript.ReloadIsElementwise` | packages/agent/src/backend.ts:285-349 | a reload is the non-system transcript, message by message, each flattened to text |
| `Transcript.ReloadKeepsPlainTranscripts` | packages/agent/src/backend.ts:285-349 | a plain transcript comes back exactly |
| `Transcript.ReloadStaysBalanced` | packages/agent/src/backend.ts:285-349 | saving and loading never unbalances calls and results |
| `AgentLoop.RunAgentLoop` | packages/agent/src/backend.ts:591-820 | the loop over a budget tracker computes the run, for every world |
| `AgentLoop.TakeTurn` | packages/agent/src/backend.ts:635-818 | one iteration: request, usage, budget, answer or tool calls, in that order |
| `AgentLoop.DispatchTools` | packages/agent/src/backend.ts:755-803 | validate, count and check the budget, call, append the result, call by call |
| `AgentLoop.FinishRun` | packages/agent/src/backend.ts:667-727 | truncation is an error before anything is saved; the save precedes the output validators |
| `AgentLoop.BudgetsHold` | packages/agent/src/backend.ts:635-818 | for every world: at most maxTurns requests, at most maxToolCalls calls handed to tools, every request after the first within the token, cost and call ceilings, with every clock reading of the turn before it within the time allowed |
| `AgentLoop.MetricsAreExact` | packages/agent/src/backend.ts:841-849 | on an answer the metrics are the per-turn sums, the number of requests, the number of tool results appended and the time elapsed at the last reading |
| `AgentOutcomes.OutcomeIsExplained` | packages/agent/src/backend.ts:638-829 | for every world the outcome, stop reason and number of calls handed to tools are what the last turn explains: the first thing in it that ended the run, in the order of the checks, with every earlier check passed and every earlier tool returned |
| `AgentRuns.EveryRequestIsBalanced` | packages/agent/src/backend.ts:607-803 | for every world and balanced history each request is well formed and is the one before it plus one complete round: the calls the model made and, for each, a result with exactly the text its tool returned; the first is the history between the system text and the prompt |
| `AgentRuns.ResumeContinuesTheConversation` | packages/agent/src/backend.ts:285-349 | a resumed run starts from exactly the previous conversation and its answer, each turn flattened to text |
| `AgentRuns.SessionsStayResumable` | packages/agent/src/backend.ts:591-712 | over any number of runs, with any store failures, what is stored stays balanced |
| `AgentRuns.EveryRequestOfEveryRunIsBalanced` | packages/agent/src/backend.ts:591-820 | so every request of every run of a session is balanced |
| `AgentRuns.RejectedAnswerIsSaved` | packages/agent/src/backend.ts:698-717 | an answer rejected by a hard output validator is saved exactly when sessions are persisted |
| `AgentRuns.RefusedAnswerIsResumedFrom` | packages/agent/src/backend.ts:698-717 | a run whose answer is rejected, and the conversation with that answer which the next run loads |
| `AgentRuns.RefusalHappens` | packages/agent/src/backend.ts:692-712 | a world in which it happens |
| `Triggers.SyncDeclaredTriggers` | packages/cli/src/gateway.ts:828-924 | the loops over the coordinator's map compute the reconcile and the sweep |
| `Triggers.ReconcileWorkflow` | packages/cli/src/gateway.ts:866-902 | one workflow's declarations, in order, against the live registrations |
| `Triggers.DeclarationsInOrder` | packages/cli/src/gateway.ts:837-868 | declarations are met workflow by workflow, in the order of the registry and of each list |
| `Triggers.SpecsEqualMeaning` | packages/cli/src/gateway.ts:938-944 | the comparison sees everything of two specs but the callback |
| `Triggers.Sweep` | packages/cli/src/gateway.ts:910-922 | unregisters exactly the declared registrations whose workflow is gone or whose id is not expected |
| `Triggers.Coordinator.Register` | packages/gateway/src/triggers/coordinator.ts:254-288 | replaces the registration under the spec's id |
| `Triggers.Coordinator.Unregister` | packages/gateway/src/triggers/coordinator.ts:589-594 | removes the registration under the id |
| `Triggers.SyncInstallsTheDeclarations` | packages/cli/src/gateway.ts:828-924 | from any state, every declared id ends up with the spec declared last as far as the comparison sees; it was left alone if it agreed with all declarations and otherwise carries one of them whole; only declared ids are marked declared |
| `Triggers.DeclaredAreExactlyTheSpecs` | packages/cli/src/gateway.ts:828-924 | when no operator registration shares a declared id, the declared registrations are exactly the declared ids, each with what it carries, and operator ones are untouched |
| `Triggers.TouchedCarriesADeclaration` | packages/cli/src/gateway.ts:889-894 | a registration made in the pass carries one declaration of its id whole: spec, input and callback |
| `Triggers.DeclarationIsInstalledIff` | packages/cli/src/gateway.ts:880-894 | a sole declaration is installed with its input and callback exactly unless a registration with an equal spec but another input or callback is there |
| `Triggers.EditedInputIsIgnored` | packages/cli/src/gateway.ts:885-888 | two syncs around an edited input: the first input stays |
| `Triggers.DeclaredRegistrationSurvivesIff` | packages/cli/src/gateway.ts:903-922 | a declared registration survives exactly when its id was reached in the pass |
| `Triggers.FailedLoadUnregisters` | packages/cli/src/gateway.ts:903-922 | two syncs, the second failing to load the workflow: the armed trigger is gone |
| `Triggers.OperatorRegistrationSurvivesIff` | packages/cli/src/gateway.ts:880-894 | an operator registration survives exactly when every declaration under its id equals its spec |
| `Triggers.OperatorScheduleIsReplaced` | packages/cli/src/gateway.ts:880-894 | an operator schedule under a declared id becomes the declared one |
| `Triggers.SyncTouchesIff` | packages/cli/src/gateway.ts:880-922 | a sync calls register or unregister on exactly the declared ids that disagree with what is registered and the declared registrations nothing declares any more |
| `Triggers.SecondSyncIsQuietIff` | packages/cli/src/gateway.ts:880-922 | a second sync calls neither register nor unregister exactly when declarations that share an id agree |
| `Triggers.DuplicatesNeverSettle` | packages/cli/src/gateway.ts:880-894 | two clashing declarations of one id are registered again on the second sync |
| `Triggers.ReconcileOfOneId` | packages/cli/src/gateway.ts:880-901 | for any registrations and any declarations, duplicates included: an id ends with the last declaration that found no spec or another one, else as it was, and is counted when some declaration of it found its spec or was armed |
| `Triggers.ReturnedCountIsRightIff` | packages/cli/src/gateway.ts:825-923 | from any registrations, the returned number is at least that of the declared ids whose registration did not fail, and equal to it exactly when no id ends failed and was counted on the way |
| `Triggers.OnlyDeclarationIsCountedRightIff` | packages/cli/src/gateway.ts:825-923 | an id declared once is counted exactly when it is armed, unless a failed registration with an equal spec was there before |
| `Triggers.ClashIsOvercountedIff` | packages/cli/src/gateway.ts:880-901 | of two clashing declarations on a first sync, the id is counted but failed exactly when the first could be armed and the second could not |
| `Triggers.SecondSyncCountsFailures` | packages/cli/src/gateway.ts:885-923 | a second sync of agreeing declarations counts every declared trigger, and overcounts exactly those that had failed to arm |
| `Triggers.FailureCountsAsArmed` | packages/cli/src/gateway.ts:885-901 | a trigger that failed to arm is counted by the next sync, which tries nothing |
| `Strings.JoinSplit` | packages/agent/src/tools.ts:457-473 | joining what a text splits into gives the text back |
| `Strings.SplitJoin` | packages/agent/src/tools.ts:328-338 | separator-free pieces are what their joined text splits into |
| `TextEdit.EditFile` | packages/agent/src/tools.ts:408-478 | argument errors first, then a range edit or a find-and-replace |
| `TextReplace.EditAnswers` | packages/agent/src/tools.ts:443-456 | empty text, no occurrence, several occurrences singly: each has its error, and all else is accepted |
| `TextReplace.ReplaceAllWalk` | packages/agent/src/tools.ts:457-461 | replacing all is the text up to the first occurrence, the replacement, and the rest treated alike |
| `TextReplace.ReplaceAllRemoves` | packages/agent/src/tools.ts:457-461 | replacing a character by a text without it leaves none |
| `TextReplace.ReplaceAllUndone` | packages/agent/src/tools.ts:457-461 | replacing a character by a new one and back restores the file |
| `TextReplace.DollarPatterns` | packages/agent/src/tools.ts:457-461 | a single edit writes a dollar for "$$", the text itself for "$&", what precedes it and what follows it for the other two patterns |
| `TextReplace.ExpandFromTheLeft` | packages/agent/src/tools.ts:457-461 | the replacement of a single edit is read from the left, pattern by pattern and character by character |
| `TextEdit.RangeEditReplacesExactlyTheRange` | packages/agent/src/tools.ts:462-473 | the edited file's lines are the old ones with exactly the range replaced |
| `TextEdit.ReadReturnsTheRange` | packages/agent/src/tools.ts:327-339 | the lines a read returns, numbers cut off, are the file's lines in the range |
| `TextReplace.ReadCoversIff` | packages/agent/src/tools.ts:329-331 | a line is in a read's range exactly when neither bound, whole or fractional, excludes it |
| `TextReplace.EditCoversIff` | packages/agent/src/tools.ts:464-465 | the same for an edit, which without an end changes one line |
| `TextReplace.ReadNumbersItsLines` | packages/agent/src/tools.ts:335-338 | each line returned is its number in the file, a tab and the line |
| `TextReplace.EmptyRangesAreRefused` | packages/agent/src/tools.ts:332-334 | reads and edits fail exactly on an empty range, and say which |
| `TextReplace.DecimalMeaning` | packages/agent/src/tools.ts:337 | line numbers are written in decimal without leading zeros |
| `TextEdit.NumberedRoundTrip` | packages/agent/src/tools.ts:335-338 | numbering, joining, splitting and cutting the numbers off gives the lines back |
| `TextEdit.WritingBackWhatWasReadChangesNothing` | packages/agent/src/tools.ts:317-473 | writing back the lines of an explicit range leaves the file as it was; both tools refuse the same ranges |
| `TextEdit.ReadingBackAnEdit` | packages/agent/src/tools.ts:317-473 | reading the edited range back returns the replacement's lines |
| `TextEdit.OneOccurrence` | packages/agent/src/tools.ts:443-461 | a count of one means the text splits around its first occurrence and occurs nowhere after it |
| `TextEdit.SingleAndAllAgreeIff` | packages/agent/src/tools.ts:457-461 | on one file they agree exactly when the replacement expands to itself there |
| `TextEdit.PathsAgreeIff` | packages/agent/src/tools.ts:457-461 | the two replace paths agree on every file and every text counted once exactly when the replacement is free of `$` patterns |
| `TextEdit.DollarFreeExpandsToItself` | packages/agent/src/tools.ts:457-461 | a replacement without the four `$` patterns expands to itself |
| `TextEdit.DollarsAreExpandedInSingleMode` | packages/agent/src/tools.ts:457-461 | "$$" writes one dollar singly and two with replaceAll |
| `TextEdit.SingleEditAcceptsIff` | packages/agent/src/tools.ts:443-456 | a single edit is accepted exactly when the text is non-empty and counted once |
| `TextEdit.BorderedIsAmbiguous` | packages/agent/src/tools.ts:443-456 | a text with a border has a file in which an accepted edit had two places to go |
| `TextEdit.UnambiguousIff` | packages/agent/src/tools.ts:443-456 | an accepted edit has one possible target in every file exactly when the text has no border |
| `Capture.Sink.OnData` | packages/agent/src/tools.ts:915-928 | one chunk keeps the capped-prefix invariant |
| `Capture.Drain` | packages/agent/src/tools.ts:880-943 | however the output is cut into chunks, the kept text is its first `cap` characters and the flag says whether more came |
| `DocsReach.LinksAsListed` | scripts/guards/docs-orphans.ts:153-165 | a page leads to exactly the targets its links resolve to |
| `DocsReach.Seed` | scripts/guards/docs-orphans.ts:135-147 | the sidebar's existing files, each queued once |
| `DocsReach.Visit` | scripts/guards/docs-orphans.ts:151-173 | one page: afterwards every existing file it links to is reachable and was queued once |
| `DocsReach.Deliver` | scripts/guards/docs-orphans.ts:150-174 | one pass of the search loop; the files not yet reached get fewer |
| `DocsReach.Crawl` | scripts/guards/docs-orphans.ts:135-174 | the search ends with exactly the files reachable by a walk of links from a seed, each visited once |
| `DocsReach.FindOrphans` | scripts/guards/docs-orphans.ts:128-181 | the orphans are exactly the pages that are unreachable, not exempt and under no skipped prefix |
| `DocsReach.FilterDropsOnlyTrailingDots` | scripts/guards/docs-orphans.ts:154-163 | a link without fragment is skipped exactly when it ends in a dot |
| `DocsReach.FilterDropsIff` | scripts/guards/docs-orphans.ts:154-163 | with its fragment, a link is skipped exactly when it ends in a dot and has no ".md" before a fragment |
| `DocsReach.ImagesAreFollowed` | scripts/guards/docs-orphans.ts:154-163 | a link to an image is not skipped |
| `Routing.CallBackend` | packages/core/src/routing-backend.ts:46-73 | the loop computes the attempt, for wrappers nested to any depth |
| `Routing.ProviderAnswers` | packages/core/src/routing-backend.ts:55-63 | a provider is called for the method that was asked and answers with its own outcome; one without the method is passed over |
| `Routing.NestingIsFlattening` | packages/core/src/routing-backend.ts:43-126 | with one retryable used throughout, whatever it refuses, a tree of wrappers makes the same calls and ends the same way as one wrapper over its leaves |
| `Routing.RoutingMeaning` | packages/core/src/routing-backend.ts:50-73 | providers that have the method are called from the front, each at most once, up to the first success or refused error; else the last error |
| `Flattening.FlattensIff` | packages/core/src/routing-backend.ts:50-73 | with distinct provider ids a tree of any retryables is flat exactly when, wherever a failed child has a later sibling with the method, its wrapper goes on exactly when the flat one would |
| `Flattening.FlattensForAllAnswersIff` | packages/core/src/routing-backend.ts:43-73 | for any retryables, finite or not: a tree behaves like one wrapper that refuses `fatal`, whatever the providers answer, exactly when every wrapper with two children that have the method, and that can be reached, refuses just `fatal` |
| `Flattening.MixedRetryablesDoNotFlatten` | packages/core/src/routing-backend.ts:64-66 | an inner wrapper that refuses an error inside a default one: no single wrapper over the leaves does the same |
| `Routing.CapabilitiesAreFlat` | packages/core/src/routing-backend.ts:75-92 | the tree advertises what one wrapper over its leaves advertises |
| `Routing.NeverStrongerThanALeaf` | packages/core/src/routing-backend.ts:35-43 | mcp, skills, tool permissions, vision and memory are never advertised more strongly than any provider has them |
| `Routing.CombineIsMerge` | packages/core/src/routing-backend.ts:75-92 | combining two groups is merging the groups' combinations |
| `Routing.WeakestIsOneOfThem` | packages/core/src/routing-backend.ts:119-126 | the weakest tool permission is one of the values and no stronger than any |
| `StrictSchema.EnforceStrict` | packages/codex/src/output-schema.ts:56-71 | the loop over entries computes the rewrite |
| `StrictSchema.OutputIsStrict` | packages/codex/src/output-schema.ts:50-71 | for every JSON tree, every object node of the output is closed: no additional properties, required equal to the property keys in order |
| `StrictSchema.FixedIff` | packages/codex/src/output-schema.ts:56-71 | the rewrite leaves a tree alone exactly when it already is strict |
| `StrictSchema.Idempotent` | packages/codex/src/output-schema.ts:56-71 | rewriting twice is rewriting once |
| `StrictSchema.NodeMeaning` | packages/codex/src/output-schema.ts:59-70 | every other property of a node is the rewritten original, and none is lost |
| `StrictSchema.RewrittenObject` | packages/codex/src/output-schema.ts:59-70 | an object whose type is "object", or whose properties are an object or array, is closed and requires exactly those properties, in order; every other property is the rewritten original |
| `StrictSchema.RewrittenItems` | packages/codex/src/output-schema.ts:57 | an array is rewritten item by item |
| `StrictSchema.RewrittenKeys` | packages/codex/src/output-schema.ts:59-70 | properties keep their order; a closing key that was missing comes last |
| `StrictSchema.RequiredAreThePropertiesIff` | packages/codex/src/output-schema.ts:63-69 | the required names are the original property names exactly when the properties are not taken for a schema |
| `StrictSchema.AFieldCalledProperties` | packages/codex/src/output-schema.ts:63-69 | a field named "properties" brings two required names that are no fields |
| `WaitPlacement.AssertNoWaitInside` | packages/core/src/builders.ts:686-721 | the recursive walk finds the first wait |
| `WaitPlacement.ThrowsIffReachable` | packages/core/src/builders.ts:686-721 | it throws exactly when a wait is reachable without looking through forEach or invoke, and names one that is |
| `BuilderAnswers.NamesTheFirstWait` | packages/core/src/builders.ts:686-721 | the wait that is named comes before every other reachable one, in the order of the tree |
| `WaitPlacement.NewParallel` | packages/core/src/builders.ts:368-408 | the loop reports the first problem: a repeated sibling id, then a wait, child by child |
| `WaitPlacement.ParallelAcceptsIff` | packages/core/src/builders.ts:379-395 | parallel accepts exactly non-empty siblings with distinct ids, a valid retry and waitFor, and no reachable wait |
| `WaitPlacement.ContainersAcceptIff` | packages/core/src/builders.ts:418-672 | loop, idempotent and pipelineStep accept exactly bodies with no reachable wait; branch and forEach do not ask |
| `WaitPlacement.AssertUniqueStepIds` | packages/core/src/builders.ts:723-731 | the loop finds the first repeated id |
| `WaitPlacement.PipelineAcceptsIff` | packages/core/src/builders.ts:76-82 | a pipeline needs an id, a step and distinct ids; it may hold waits |
| `BuilderAnswers.ParallelAnswers` | packages/core/src/builders.ts:379-395 | parallel returns the step with its children, or the first error: id, steps, configuration, then the first sibling with a repeated id or a wait |
| `BuilderAnswers.SimpleAnswers` | packages/core/src/builders.ts:418-564 | loop, wait and forEach return their step, or the first error in their order |
| `BuilderAnswers.WrapperAnswers` | packages/core/src/builders.ts:459-660 | branch, pipelineStep and idempotent likewise; the wait named is the first |
| `BuilderAnswers.PipelineAnswers` | packages/core/src/builders.ts:76-104 | pipeline returns what it was given, or the first error, and for a repeated id the first one repeated |
| `WaitPlacement.ListBuildersKeepBuilt` | packages/core/src/builders.ts:368-601 | what parallel, forEach, branch, pipelineStep and pipeline return from built children is built |
| `WaitPlacement.StepBuildersKeepBuilt` | packages/core/src/builders.ts:506-672 | the same for loop, idempotent and wait |
| `WaitPlacement.Yields` | packages/core/src/builders.ts:444-448 | a wrapped factory hands out only children from which no wait is reachable |
| `BuilderAnswers.YieldsMeaning` | packages/core/src/builders.ts:444-448 | it hands out exactly the children from which no wait is reachable, in order |
| `WaitPlacement.OnlyBranchesAboveAWait` | packages/core/src/builders.ts:478-481 | in a built step every node above a wait, through forEach yields too, is a branch |
| `WaitPlacement.WaitsOfAPipeline` | packages/core/src/builders.ts:681-691 | in a built pipeline a wait is a top-level step or stands under branches only |
| `WaitPlacement.PassingStepsAreWaitFree` | packages/core/src/builders.ts:686-721 | for built steps the static check passes exactly when no live path meets a wait |
| `BackendDefaults.DescriptionIsKept` | packages/core/src/introspect.ts:42-97 | filling in default backends does not change how a step is described |
| `BackendDefaults.PipelineDescriptionIsKept` | packages/core/src/introspect.ts:31-40 | the same for a whole pipeline with its description and version |
| `BackendDefaults.DescriptionMirrors` | packages/core/src/introspect.ts:42-97 | each node of a description shows its step's id, kind, labels and permissions, and its children are those of the step, in order |
| `BackendDefaults.PipelineDescriptionMirrors` | packages/core/src/introspect.ts:31-40 | a pipeline's description is its own fields and its steps, described |
| `BackendDefaults.PatchesCompose` | packages/cli/src/backends.ts:68-140 | patching twice is patching once with the first defaults winning; so patching is idempotent |
| `BackendDefaults.EveryNodeIsPatched` | packages/cli/src/backends.ts:79-140 | the shape is kept and every node, at any depth and inside factories, is the patched original |
| `BackendDefaults.BackendOfEveryNode` | packages/cli/src/backends.ts:85-92 | every infer and agent node runs on its own backend or else the default for its kind |
| `EventBus.Bus.PublishEvent` | packages/core/src/events.ts:247-274 | stamps the event with the history's next number and calls the subscriptions the flat list has |
| `EventBus.Bus.SubscribeAll` | packages/core/src/events.ts:285-288 | keeps the index equal to the flat list |
| `EventBus.Bus.UnsubscribeAll` | packages/core/src/events.ts:287 | keeps the index equal to the flat list |
| `EventBus.Bus.ForRun` | packages/core/src/events.ts:294-300 | keeps the index equal to the flat list |
| `EventBus.Bus.UnsubscribeRun` | packages/core/src/events.ts:301-306 | the same, whenever it is called; no empty index entry stays |
| `EventBus.Bus.ListenerCount` | packages/core/src/events.ts:309-314 | the count over both indexes is the length of the flat list |
| `EventBus.DeliveryIsInterested` | packages/core/src/events.ts:256-264 | delivery through the index reaches every interested subscription as often as filtering the flat list does |
| `EventBus.RegistrationOrderIff` | packages/core/src/events.ts:232-264 | in registration order exactly when no listener of the run was registered before a global one |
| `EventBus.LaterGlobalGoesFirst` | packages/core/src/events.ts:232-264 | a global listener registered later is called before one of the run |
| `EventBus.SubscribedIffLive` | packages/core/src/events.ts:285-307 | a subscription is listed once while it has been made and not undone since, and not otherwise |
| `EventBus.ConsecutiveNumbers` | packages/core/src/events.ts:248-255 | between terminal events a run's events carry consecutive numbers, whatever other runs do |
| `EventBus.FirstNumber` | packages/core/src/events.ts:248-273 | the first event of a run, or after its terminal event, carries 1 |
| `EventBus.NumbersIncreaseIff` | packages/core/src/events.ts:217-274 | over any history the numbers given to a run increase exactly when none is given after a terminal event that is, or follows, a numbered one |
| `EventBus.LateEventRepeatsANumber` | packages/core/src/events.ts:248-274 | an event after the terminal one carries 1 again |
| `Semaphore.ConcurrencySemaphore.AcquireFor` | packages/core/src/concurrency.ts:18-24 | grants at once below the limit or without one, else queues |
| `Semaphore.ConcurrencySemaphore.ReleaseOne` | packages/core/src/concurrency.ts:25-29 | hands the slot to the longest waiter, or frees it |
| `Semaphore.FirstComeFirstServed` | packages/core/src/concurrency.ts:13-31 | over any history: grants in arrival order, never more active than the limit, waiters only at the limit, none without one |
| `Semaphore.GrantsInClosedForm` | packages/core/src/concurrency.ts:13-31 | the callers granted are the first releases + limit of those that asked |
| `ChatQueue.FrontendHost.SubmitLine` | packages/cli/src/tui.ts:150-155 | a blank line is dropped; another runs at once or queues |
| `ChatQueue.FrontendHost.Process` | packages/cli/src/tui.ts:134-139 | numbers and starts a turn |
| `ChatQueue.FrontendHost.EndTurn` | packages/cli/src/tui.ts:138-146 | shows the reply if there is one, then starts the next line or settles the idle waiters |
| `ChatQueue.FrontendHost.WaitIdle` | packages/cli/src/tui.ts:161-164 | resolves at once exactly when nothing is active or queued |
| `ChatQueue.SkippedIffBlank` | packages/cli/src/tui.ts:150-152 | a submitted line is skipped exactly when it is all white space |
| `ChatQueue.TrimMeaning` | packages/cli/src/tui.ts:151 | a line loses the white space at its ends and nothing else |
| `ChatQueue.WhiteSpace` | packages/cli/src/tui.ts:151 | the characters that are trimmed are the white space and line terminators of the language specification |
| `ChatQueue.TurnsInClosedForm` | packages/cli/src/tui.ts:117-167 | over any history: the turns run are the first lines submitted, one more than have ended, numbered 1, 2, 3, ..., one at a time, failed turns included |
| `ChatQueue.EverythingIsDrained` | packages/cli/src/tui.ts:117-167 | when as many turns have ended as lines were submitted, all were run and all waiters are awake |
| `ChatQueue.IdleMeansQuiet` | packages/cli/src/tui.ts:128-146 | a waiter is woken only by a step that leaves nothing active or queued, and none is lost |
| `CodexStream.ConsumeStream` | packages/codex/src/client.ts:124-198 | the loop computes the outcome, the deltas and the reported errors |
| `CodexStream.OutcomeMeaning` | packages/codex/src/client.ts:163-197 | turn.failed decides first; else any turn.completed succeeds with the last usage and message; else a notice fails |
| `CodexStream.ErrorsAreReported` | packages/codex/src/client.ts:174-182 | every notice up to the end of the turn and the failure that ends it are reported, in order, and nothing else |
| `CodexStream.DeltasAreTheTextIff` | packages/codex/src/client.ts:149-162 | the deltas concatenate to the final text exactly when every message extends the one before it |
| `CodexStream.FreshMessageIsHandedOutWhole` | packages/codex/src/client.ts:149-162 | a second message that starts afresh is handed out whole after the first |
| `CodexStream.NoEmptyDelta` | packages/codex/src/client.ts:149-162 | no empty delta is handed out |

## Left out

- HTTP, SSE, subprocesses, timers, terminal UI, service managers and file access; their results are inputs.
- Model endpoints, the Codex SDK, browsers, the memory service, cron parsing, zod and DNS: code that is not here.
- The runner, the run store, fanout and task handles and human approval gates; assumed of them are an atomic
  compare-and-swap of a whole record (`StateStore` is not part of this model beyond that) and the coordinator's map.
- Session lock: owner ids are distinct between replicas, although `gateway:<pid>` can repeat across hosts and
  containers; one call at a time per owner id, as the in-process lock ensures within one replica; replicas read one
  clock; one reading of the clock serves each step; staleness windows differ per caller but none is below the stated
  least one.
- Host path rules other than POSIX; symbolic links; names such as "constructor" that a JavaScript record of profiles
  inherits.
- The text of error messages, and event payloads beyond ids, kinds and counts; reasoning text; streaming callbacks.
- Agent loop: costs are reals; memory recall, MCP attachment, denied-tool events and the tool registry are part of the
  tool's arbitrary answer; the usage returned beside the metrics.
- Text tools: text is a sequence of characters, so the UTF-8 decoding of cut multi-byte characters is not modelled; the
  timeout and kill paths of exec are not.
- Docs guard: parsing pages and mapping links to files is an arbitrary finite function.
- Routing: retryable decides by the error only, not by the child's id or the attempt index; onFailover and dispose.
- Strict schemas: a key called `__proto__`, and the order JavaScript gives integer-like keys.
- Step builders: guardrails, finalizers, triggers and the other fields they copy; forEach factories are the list of
  steps they return, call by call.
- Describing a step: how an agent's permissions are summarised; that summary is a value of the step.
- Event bus: a listener that publishes or unsubscribes while it is being called.
- Semaphore: a release without a grant.
- Chat queue: the exact moments at which promises resume; a turn that never settles stays in flight.
- CLI dispatch, configuration discovery and merging, scaffolding and the other guard scripts: plumbing.
- Triggers.Coordinator.Register: stores the registration and whether arming failed; overlap policy, cleanup of earlier
  resources and arming by kind belong to the coordinator, of which only the map is modelled.
- Triggers.Coordinator.Unregister: removes the registration; timers, dispatch state and queues are not modelled.
- FsPath.RootAdmitsIffWithin: `resolve` is the collapsing of dot segments; the code resolves relative paths against "/".
- Semaphore.FirstComeFirstServed: histories in which nobody releases without a grant.
- Delegation.MeetIsBothAllow: not for file access, where the code's bound is only sound; `SharedRootsAreExactIff` says
  exactly when it is exact.
