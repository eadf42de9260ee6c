# The apply, check and clean-up engine of kuttl

This project models how kuttl loads a test case, applies its objects, checks its assertions, cleans up and reports,
against an abstract API server, and proves what each part promises. `dafny verify dfyconfig.toml` checks all of it.

**The API server.** A cluster (`Cluster.dfy`) maps keys (kind, namespace, name) to JSON-like trees. Before every call of
ours other writers transform the store as they like; any call may fail, and then leaves the store unchanged; the answers
NotFound and AlreadyExists are truthful; an accepted deletion may linger. Several clients may talk to one cluster.

**Applying** (`Retry.dfy`, `Apply.dfy`, `ApplySafety.dfy`, `ApplyRetries.dfy`, `ApplyErrors.dfy`, `AssertApplied.dfy`,
`MergePatch.dfy`).
`retry` is a state machine over the steps of its caller, its attempts and the context; a schedule is any sequence of
steps. `CreateOrUpdate` refines it, with the server calls of each attempt and the writes of others as steps of their own.
An update is a JSON merge patch (section 2 of RFC 7396) that names the version read before; the server applies it to that
version only, keeps what was submitted and may add fields. Which errors are tried again, what a nil error means, what any
other error means, and what an assertion sees afterwards are proved for every schedule.

**Matching** (`Subset.dfy`, `Objects.dfy`, `Lookup.dfy`, `Prune.dfy`, `KeyOrder.dfy`). The comparison of trees, the lookups in
front of it, and the shortening of long fields before a difference is printed.

**Steps** (`Loading.dfy`, `LoadingExactly.dfy`, `Misplaced.dfy`, `Deletion.dfy`, `DeletionTargets.dfy`, `Checks.dfy`,
`Creation.dfy`, `CreationErrors.dfy`, `Passing.dfy`, `StepRuns.dfy`, `StepErrors.dfy`, `Step.dfy`). The class `Step` has the fields that loading and running reassign; its methods are proved against
specification functions, about which the other modules state what loading, deleting, creating and checking amount to.
`ApplyFrame.dfy` and `StepFrame.dfy` prove what a run of a step leaves alone.

**Cases** (`CaseRun.dfy`, `Case.dfy`, `NamespaceOutcomes.dfy`, `EagerSetup.dfy`, `CaseSafety.dfy`, `CaseLog.dfy`,
`StepInCase.dfy`, `ObjectsGone.dfy`, `Testing.dfy`). Namespaces, setup over the clients of all steps, the run, and its clean-ups, last in
first out. `StepInCase.dfy` and `ObjectsGone.dfy` put steps and cases together.

**Reports** (`Report.dfy`, `ReportTree.dfy`, `ReportTotals.dfy`, `ReportCalls.dfy`, `Order.dfy`). Suites and test cases are
objects, filled by parallel tests and rolled up in place; the trees they hold are values about which the totals are
proved. Parallel tests are sequences of calls in any order; `ReportCalls.dfy` goes from the calls to the trees.

**Files and logging** (`FileName.dfy`, `StepFiles.dfy`, `Logger.dfy`). File names, grouping of files into steps, and the
line-buffering logger. `Seqs.dfy` says what it is to keep an order.

Where the code and a reader's expectation differ, the code is followed:

- a timeout of zero or less means that nothing is checked and the step passes (`Checks.NoTimeNoChecks`);
- an error of CreateOrUpdate means that nothing was written if and only if the call has no deadline or its object no
  name: a creation or an update noticed after the deadline is returned as an error
  (`ApplySafety.LateSuccessIsReportedAsFailure`, `ApplyErrors.LateUpdateIsReportedAsFailure`), and an abandoned attempt
  may create the object after the call has returned (`ApplyErrors.CreatedAfterReturn`);
- so a step with a timeout may leave an object that it created without any clean-up, and only such a step
  (`Creation.AlwaysCleansUpExactly`, `Creation.Leak`);
- a TestAssert in an apply file, or a TestStep in an assert file, is not taken out of its list and not in force, whatever
  files follow (`Misplaced.ListsAreCleanExactly`, `Misplaced.SomeAreLeft`);
- everything behind a TestStep's paths is added again after each later file of the step (`Loading.LoadedStep`);
- eager clients are kept by kubeconfig path alone, so a step is served with its own client if and only if all eager
  steps with its path want the same one (`EagerSetup.AllServedExactly`, `EagerSetup.LaterContextIsLost`);
- closing a report a second time adds to its totals (`ReportTree.CloseOnce`);
- a named object of a namespaced kind is never found when no namespace is given at all (`Lookup.LookupAgreesWithScan`);
- an object with a null under an object key does not match what an update of it stores, unless the server adds what the
  null removed (`AssertApplied.PlainUpdateMatches`);
- an applied object that names a resource version matches only while the server still has that version
  (`AssertApplied.WriteMatches`).

## Model

| member | source | states |
|---|---|---|
| Retry.ValidateErrors | internal/kubernetes/retry_client.go:35-43 | an error is swallowed exactly when it satisfies some validator, and is otherwise returned as it is |
| Retry.RetryIsSafe | internal/kubernetes/retry_client.go:46-100 | in every state of every schedule: at most one attempt is outstanding; attempt n+1 directly follows the received, tolerated error of attempt n; nil is returned only for a nil function or a received success; an untolerated error is returned as it is; on expiry the result is the last tolerated error, or the context error if there was none |
| Retry.ReturnIsFinal | internal/kubernetes/retry_client.go:46-100 | once retry returned, no attempt is started and nothing is received any more, whatever an abandoned attempt still does |
| Apply.StepRefines | internal/kubernetes/retry_client.go:311-354 | every step of CreateOrUpdate, server calls and other writers included, is a step of retry or invisible to it |
| Apply.RunRefinesRetry | internal/kubernetes/retry_client.go:311-354 | every schedule of CreateOrUpdate is a schedule of retry, so what holds of retry holds here |
| ApplyRetries.RetriesExactly | internal/kubernetes/retry_client.go:311-354 | in every state of every schedule: an error received is followed by another attempt if it is AlreadyExists or, where the caller wants that, Conflict; any other one has been returned as it is; and what the call reports is what its loop returned, except that a passed deadline makes it an error |
| ApplyRetries.RefusalIsAnswered | internal/kubernetes/retry_client.go:314-349 | a refusal by the server reaches the waiting caller, who tries again after AlreadyExists and, exactly if wanted, after Conflict, and returns what is neither |
| ApplyRetries.PanicIsReturned | internal/kubernetes/retry_client.go:62-69 | a panic of an attempt is returned as an error and not tried again |
| ApplySafety.PatchNamesVersion | internal/kubernetes/retry_client.go:293-306 | the patch carries the version that was read, so the server applies it to that version or to none |
| ApplySafety.PatchHitsWhatWasRead | internal/kubernetes/retry_client.go:328-339 | an accepted patch hits exactly the object that Get read in the same attempt, in every interleaving with other writers: no lost update |
| ApplySafety.NilErrorMeansOneWrite | internal/kubernetes/retry_client.go:311-354 | in every reachable state at most one server write was made, each write a creation of an absent key or a merge patch of what was read; a nil error means exactly one, and updated tells which |
| ApplyErrors.ErrorWithoutExpiryMeansNoWrite | internal/kubernetes/retry_client.go:311-354 | in every schedule and at every point of it: as long as the context has not ended, an error of the call means that it has written nothing |
| ApplyErrors.NamelessWritesNothing | internal/kubernetes/retry_client.go:319-347 | a call for an object without a name never writes, in any schedule |
| ApplyErrors.CreatedIsCreatable | internal/kubernetes/retry_client.go:340-346 | in every schedule, an object that its call created has a name and names no resource version |
| ApplyErrors.ErrorMeansNoWriteExactly | internal/step/step.go:191-198 | an error means that nothing was written, in all schedules of a call, if and only if the call has no deadline or its object has no name |
| ApplySafety.LateSuccessIsReportedAsFailure | internal/kubernetes/retry_client.go:350-352 | for every object that can be created and every store, a schedule that shows the first failing case: the object is created in time, and the call returns an error |
| ApplyErrors.LateUpdateIsReportedAsFailure | internal/kubernetes/retry_client.go:350-352 | for every named object, the same for an update: the object is patched in time, and the call returns an error |
| ApplyErrors.CreatedAfterReturn | internal/kubernetes/retry_client.go:72-97 | for every object that can be created and every store, a schedule that shows the other failing case: when the call returns its error nothing is written, and its abandoned attempt creates the object afterwards |
| MergePatch.MergeContainsPatch | internal/kubernetes/retry_client.go:337-339 | after a merge patch (section 2 of RFC 7396) the result is a superset of the patch, for every target, if and only if the patch has no null under an object key |
| MergePatch.MergeIdempotent | internal/kubernetes/retry_client.go:337-339 | sending the same patch again changes nothing |
| MergePatch.MergeFrame | internal/kubernetes/retry_client.go:337-339 | a merge touches no key the patch does not name, and only a null removes one |
| AssertApplied.WriteMatches | internal/kubernetes/retry_client.go:311-354 | what an accepted write stores is a superset of the object the call was given if and only if the object names no resource version or the very one that was stored (for an update: an object without nulls under object keys) |
| AssertApplied.PlainUpdateMatches | internal/kubernetes/retry_client.go:328-339 | where the server stores an update as merged, with only the version changed, the stored object is a superset of the given one if and only if this has no null under an object key and names no resource version or the one stored |
| AssertApplied.AppliedObjectPasses | internal/kubernetes/retry_client.go:319-347 | apply, then assert: after a nil error and with only additions and version changes since, the assertion on the same named object passes if and only if the object names no resource version or the current one |
| AssertApplied.StoredSupersetIsFound | internal/step/step.go:303-325 | the assertion on a stored, named object passes if and only if what is stored under its own key is a superset of it |
| Cluster.GetIsTruthful | internal/kubernetes/wait.go:20-32 | what polling relies on: a NotFound answer means that the object is absent from the store as other writers left it, and without a fault an absent object is answered so; an object answered is the stored one; a Get changes nothing |
| Cluster.CreateIsTruthful | internal/testcase/case.go:225-263 | what namespace creation relies on: a Create succeeds only where nothing was, AlreadyExists means that something was, an error changes nothing, and no other object is touched |
| Cluster.DeleteIsTruthful | internal/step/step.go:151-166 | what deletion relies on: an accepted Delete met the object and removes or marks it, NotFound means that it is absent, an error changes nothing, and no other object is touched |
| Cluster.ListIsComplete | internal/step/step.go:230-248 | a listing that succeeds holds an object if and only if it is stored and has the kind, the namespace if one is given, and all of the labels |
| Subset.IsSubset | internal/utils/subset.go:39-92 | returns nil exactly when the declarative subset relation holds, for every order of map iteration; otherwise an error that the relation can report; terminates |
| Subset.SubsetError.AppendPath | internal/utils/subset.go:15-21 | the key is added at the leaf-to-root end, the message kept |
| Subset.SubsetError.Error | internal/utils/subset.go:24-35 | prints the path root to leaf with a dot before every key, then the message |
| Subset.Reflexive | internal/utils/subset.go:39-92 | every value is a subset of itself, so the shortcut for equal values is redundant |
| Subset.Transitive | internal/utils/subset.go:39-92 | the relation is transitive: supersets of what was asserted keep the assertion true |
| Subset.Antisymmetric | internal/utils/subset.go:39-92 | mutual subsets are equal |
| Subset.ReportableExactlyOnFailure | internal/utils/subset.go:39-92 | some error can be reported if and only if the relation fails |
| Subset.ReportIsTrueWitness | internal/utils/subset.go:52-88 | a reported path, read root to leaf and with list positions put back, leads to a real missing key, type, length or value difference |
| Subset.FailureHasRealDifference | internal/utils/subset.go:39-92 | the relation fails if and only if a walk down both trees ends in a real difference, stated without the comparison |
| Objects.GetAPIResource | internal/kubernetes/object.go:100-115 | finds the first resource whose kind matches ignoring case; succeeds if and only if the version is known and such a resource exists |
| Objects.EqualFoldExactly | internal/kubernetes/object.go:100-115 | kinds match if and only if they are equal up to the case of letters |
| Objects.NamespacedExactly | internal/kubernetes/object.go:32-54 | where an object belongs: in the namespace it names; if it names none and its kind has namespaces, in the given one, which is filled in; for a kind of the cluster in none; the only error is that the kind is not known |
| Objects.NamespacedFrame | internal/kubernetes/object.go:32-54 | filling in the namespace changes no other field, and never a namespace already set |
| Objects.NamespacedIdempotent | internal/kubernetes/object.go:32-54 | filling in the namespace again gives the same object, name and namespace |
| Lookup.LookupAgreesWithScan | internal/step/step.go:251-326 | Get by name and List by label, kind and namespace find a match if and only if some object of the whole store has all that the expected object asks for and, where this is of a namespaced kind and names no namespace, is in the given one; except that a named object of a namespaced kind without any namespace is never found |
| Lookup.AbsenceAgreesWithScan | internal/step/step.go:329-395 | a negative assertion is accepted if and only if the kind is known and served and the plain scan of the store finds no match |
| Lookup.FitsPlainly | internal/step/step.go:303-325 | for an object that names a namespace or has no such field, to match is to be a superset of it, and in the given namespace if the kind has namespaces |
| Steps.Step.FindCandidates | internal/step/step.go:251-296 | candidates come from a Get when there is a name and from a List otherwise, after filling in the namespace; every error is passed on |
| Steps.Step.CheckResource | internal/step/step.go:251-326 | no errors if and only if some candidate is a superset; otherwise the lookup error, the error that nothing was found, or for every candidate a difference and a true report of it |
| Steps.CompareAll | internal/step/step.go:303-325 | the candidate loop: no errors if and only if some candidate is a superset |
| Steps.Step.CheckResourceAbsent | internal/step/step.go:329-395 | no error if and only if nothing was found or no candidate is a superset |
| Steps.CountSupersets | internal/step/step.go:366-388 | counts at least one unexpected object if and only if some candidate is a superset |
| Prune.Prune | internal/kubernetes/serialization.go:42-67 | the two loops compute the pruned map: nested maps pruned, long additions replaced by the marker |
| Prune.PruneKeepsReports | internal/kubernetes/serialization.go:42-67 | exactly the same errors can be reported before and after pruning |
| KeyOrder.ReportedFits | internal/utils/subset.go:39-92 | for every order in which keys are met: the comparison reports an error exactly when it fails, and then one that can be reported |
| KeyOrder.PruneKeepsReport | internal/kubernetes/serialization.go:42-67 | for the same order of keys, the same error is reported before and after pruning |
| Prune.PruneKeepsVerdict | internal/kubernetes/serialization.go:25-67 | pruning never changes the verdict of an assertion |
| Prune.PruneOnlyElides | internal/kubernetes/serialization.go:42-67 | at every pair of maps reached: the keys stay, an extra key is elided exactly when it is long, and other values are kept |
| Prune.PruneIdempotent | internal/kubernetes/serialization.go:42-67 | pruning twice is pruning once when the marker is short |
| Steps.Step.LoadOrSkipFile | internal/step/step.go:631-662 | separates the TestFile from the other objects; a second TestFile or a malformed selector is an error |
| Steps.Step.PopulateObjectsByType | internal/step/step.go:676-693 | objects go to the list of their file type; the first apply file names the step |
| Steps.Step.LoadYAML | internal/step/step.go:533-629 | the step after the call is the specification LoadFile of the step before; on errors the error is the same |
| Loading.LoadedStep | internal/step/step.go:533-693 | after any sequence of files of a step whose paths hold plain objects: apply, assert and error lists are the plain objects in file order, with everything behind the TestStep's paths repeated after each file that is not skipped, from the TestStep's own file on; the TestAssert in force is the last one, with its programs; the name is that of the TestStep, or else the first in the name of an apply file; kubeconfig, context and loading mode are those of the TestStep; no TestStep is left in the apply list and no TestAssert in the assert list |
| Loading.SkippedAddsNothing | internal/step/step.go:540-545 | a skipped file changes nothing |
| LoadingExactly.FileExactly | internal/step/step.go:631-662 | a file is skipped if and only if its TestFile does not select the test run; otherwise its objects are those besides the TestFile, in order; it is an error if and only if it cannot be read, holds two TestFiles or a malformed selector |
| LoadingExactly.ExpandExactly | internal/step/step.go:596-624 | the objects behind a list of paths follow one another in the order of the paths, all of which must be readable |
| LoadingExactly.WithoutInOrder | internal/step/step.go:548-594 | what is left of a list when one of kuttl's own kinds is taken out is every other object, in order |
| LoadingExactly.LastOfExactly | internal/step/step.go:548-562 | the object in force is the last one of its kind |
| LoadingExactly.LoadsExactly | internal/step/step.go:533-629 | loading a file succeeds if and only if it is readable, and either skipped or of a known type with well-formed TestAsserts, at most one TestStep for the step, and readable paths |
| Misplaced.LeftAfterLoading | internal/step/step.go:533-629 | for each of the three lists and every kind, after any sequence of files: the list holds an object of the kind if and only if this is not the kind taken out of the list and some file of the list's type, or some path of the TestStep met, brings one |
| Misplaced.ListsAreCleanExactly | internal/step/step.go:548-594 | apply and assert lists hold none of kuttl's own objects if and only if no apply file or apply path brings a TestAssert and no assert file or assert path brings a TestStep |
| Misplaced.SomeAreLeft | internal/step/step.go:548-594 | for any step and TestAssert, two files after which the TestAssert is the object to apply and a TestStep the assertion, and neither is in force |
| Deletion.WaitForDelete | internal/kubernetes/wait.go:16-39 | polls all targets until one pass sees every one NotFound, or the time is up |
| DeletionTargets.PollExactly | internal/kubernetes/wait.go:16-39 | waiting succeeds if and only if one of the passes that there is time for sees every target NotFound |
| DeletionTargets.GoneIsNoticed | internal/kubernetes/wait.go:16-39 | where calls do not fail, targets that are gone by one of the polls, and that nobody creates again, end the wait |
| Steps.Step.Resolve | internal/step/step.go:107-149 | resolves the references in order; the first error ends it |
| DeletionTargets.TargetsExactly | internal/step/step.go:107-149 | the targets are, reference by reference in their order, exactly what these stand for: a named one that object, in its own namespace or else that of the test, or in none for a kind of the cluster; another one every stored object of its kind with its labels, in that namespace if there is one |
| DeletionTargets.ListedTargets | internal/step/step.go:123-143 | a reference without a name targets exactly the stored objects that it stands for |
| DeletionTargets.ResolvedExactly | internal/step/step.go:107-143 | resolving fails if and only if some kind is not known or some listing fails |
| Steps.Step.DeleteEach | internal/step/step.go:151-166 | deletes the targets in order, tolerating NotFound; the first other error ends it |
| DeletionTargets.DeleteAllExactly | internal/step/step.go:151-166 | call by call: a Delete is sent for each target in turn, up to the first error other than NotFound, which is returned; without one, for all of them |
| Steps.Step.DeleteExisting | internal/step/step.go:91-169 | resolves references by name or label, deletes every target and waits; the first error ends it |
| Deletion.NilMeansGone | internal/step/step.go:91-169 | a nil error means that one final pass saw every resolved target NotFound; a target that no other writer creates is not in the store |
| Deletion.DeletesOnlyTargets | internal/step/step.go:91-169 | whatever the outcome, nothing is created and nothing but resolved targets is deleted |
| DeletionTargets.EveryTargetDeleted | internal/step/step.go:151-168 | when deletion ended without an error, a Delete was sent for every target in turn, and accepted or answered NotFound |
| DeletionTargets.DeletionSucceeds | internal/step/step.go:151-168 | where calls do not fail, deletions take effect at once and nobody else creates a target, deletion ends without an error, whether or not the targets were there |
| DeletionTargets.StepDeletes | internal/step/step.go:91-169 | a step without a TestStep deletes nothing; another one has, without an error, sent a Delete for all that its references stand for, and what nobody else creates is gone |
| Steps.Step.Create | internal/step/step.go:172-219 | objects are applied in order and errors collected; the apply list keeps the namespaces filled in; a clean-up is registered for each creation unless deletions are skipped |
| Creation.CleanupsAreForCreations | internal/step/step.go:183-212 | the registered clean-ups are, in list order and once each, the keys of exactly those objects whose call returned nil and reported a creation |
| Creation.NoCleanupsWhenSkipped | internal/step/step.go:201-212 | no clean-up is registered when deletions are skipped |
| CreationErrors.CreatedNext | internal/step/step.go:185-213 | each object is submitted with its namespace filled in, to the world that the one before left; its error is added to those before |
| CreationErrors.ErrorsAreForFailures | internal/step/step.go:183-199 | one error is reported for each object whose place cannot be told or whose call failed, in the order of the list, and for no other |
| CreationErrors.NoErrorsExactly | internal/step/step.go:172-219 | no errors are reported if and only if the clients could be had and the call of every object returned nil |
| StepRuns.ChecksReached | internal/step/step.go:460-485 | a step gets to its checks if and only if its commands succeeded and every object was applied with a nil error |
| Creation.CleanupMeansCreated | internal/step/step.go:196-212 | a clean-up is for an object whose call found its key absent and created it, in every schedule: never for a patched object |
| Creation.CreatedMeansCleanup | internal/step/step.go:191-212 | the converse: an object that its call created, in a schedule whose context has not ended, has its clean-up registered |
| Creation.AlwaysCleansUpExactly | internal/step/step.go:191-212 | in all schedules of all calls, each from the store that the calls before it left, the clean-ups are those of the created objects, no more and no less, if and only if calls have no deadline or no submitted object can be created, for want of a name or because it names a resource version (what is stored at the start has a version, as everything a server stores) |
| Creation.Leak | internal/step/step.go:191-212 | for every list and every such store, schedules with a deadline in which all its objects that can be created are created, and no clean-up is registered |
| Steps.HasTimeoutErr | internal/step/step.go:738-745 | true exactly when some error wraps the deadline error |
| Steps.Step.CheckAsserts | internal/step/step.go:431-436 | all positive assertions are checked; errors are empty exactly when each holds, and are in order those of each assertion |
| Steps.Step.CheckErrors | internal/step/step.go:443-447 | all negative assertions are checked; errors are empty exactly when each holds, and are in order those of each assertion |
| Steps.Step.Check | internal/step/step.go:431-450 | a round is empty exactly when all assertions hold and all commands and expressions succeed; otherwise its errors are those of the positive assertions, of commands and expressions, and of the negative assertions, in this order |
| Steps.Step.Run | internal/step/step.go:460-525 | deletes, runs commands, creates, and checks in rounds: world, clean-ups and object lists are those of the specification for whatever the outside world answers; the errors are that of the deletion; those of commands and applying, unless all objects were applied; or those of the last round, which show whether it timed out, and are not empty if commands or expressions of its TestAssert failed; a timeout of the TestAssert wins |
| StepErrors.EndsEarly | internal/step/step.go:460-485 | a run that reported an error before its checks ends there: with the error of its deletion, or with those of its commands and of the objects that were not applied |
| StepErrors.EndsChecked | internal/step/step.go:487-524 | any other run ends with its last round of checks, and not without errors if commands or expressions failed in it |
| Steps.Step.Prepare | internal/step/step.go:460-485 | deletion, commands and applying: no errors if and only if all went well |
| StepErrors.ErrorsBeforeChecks | internal/step/step.go:465-485 | the error of the commands comes first, then one for each error of applying, in order |
| Checks.RoundsEnd | internal/step/step.go:490-500 | no round before the last found no errors or ran into a deadline, and each began in time; the last did, or time is up |
| Checks.LateCommandEndsRounds | internal/step/step.go:496-498 | a command that ran into the deadline ends the rounds, however its error is wrapped |
| Checks.RoundsMade | internal/step/step.go:487-524 | for a timeout of at least one second between 1 and timeout rounds are made, the outcome is that of the last, and it is empty if and only if some round found no errors |
| Checks.RoundsUnique | internal/step/step.go:487-524 | the number of rounds is determined by the clock and the answers |
| Checks.NoTimeNoChecks | internal/step/step.go:487-490 | with a timeout of zero or less no round is made |
| Checks.SecondRoundKeepsObjects | internal/step/step.go:431-450 | after the first round the namespaces are filled in: later rounds look at the same objects |
| Passing.PassingIsTrue | internal/step/step.go:487-506 | a step that passes, with a timeout of at least one second, has made a last round in which every positive assertion had a match in the whole store its lookup saw, and no negative one that can be looked up had any |
| Passing.RoundPassesExactly | internal/step/step.go:431-450 | where no call fails and every assertion can be looked up: a round passes if and only if commands and expressions succeed, every positive assertion has a match in the whole store and no negative one has |
| Passing.ListExactly | internal/step/step.go:431-447 | a list of assertions passes if and only if each of them holds, and times out if and only if the lookup of one does |
| Passing.DeadlineExactly | internal/step/step.go:431-450 | a round runs into a deadline if and only if a lookup, a command or an expression does |
| StepFrame.DeletionKeeps | internal/step/step.go:91-169 | deleting what a TestStep lists leaves every other object alone |
| ApplyFrame.CallLeaves | internal/kubernetes/retry_client.go:311-354 | in every schedule in which other writers leave an object alone, a call for another key leaves it where it is |
| StepFrame.CreationKeeps | internal/step/step.go:172-219 | applying objects by any schedules of CreateOrUpdate leaves every object under another key alone, as far as other writers do |
| StepFrame.CreationDeletesNothing | internal/step/step.go:172-219 | applying objects by any schedules deletes nothing |
| StepFrame.ScheduledRan | internal/step/step.go:196-197 | objects applied by schedules went through runs of CreateOrUpdate, so the theorems about clean-ups and created objects apply to them |
| StepFrame.RoundsKeep | internal/step/step.go:431-524 | checking changes nothing, however many rounds are made |
| StepInCase.PlayedKeeps | internal/step/step.go:460-524 | a whole run of a step that neither resolves nor applies the test's namespace leaves it as it was, with quiet other writers |
| StepInCase.PlayedDeletesTargets | internal/step/step.go:460-524 | whatever other writers do, the only deletions a whole run of a step makes are those of its resolved targets |
| StepInCase.PlayedCleanups | internal/step/step.go:201-212 | every clean-up of a whole run of a step deletes the key of an object that it submitted |
| StepInCase.CleanupsLeaveNamespace | internal/step/step.go:201-212 | so the clean-ups of a step that does not apply the test's namespace leave it alone |
| Cases.Case.DidNsExist | internal/testcase/case.go:254-280 | AlreadyExists means it existed; Forbidden is settled by a Get, and trusted when that fails; anything else is passed on |
| Cases.Case.CreateNamespace | internal/testcase/case.go:215-252 | creates through one client, and registers a deletion that knows whether the namespace existed; nothing on error or when deletions are skipped |
| NamespaceOutcomes.NamespaceAvailable | internal/testcase/case.go:215-258 | where the call is answered, the client is reached: an existing namespace is left as it is and known to have existed, an absent one is created |
| NamespaceOutcomes.ForbiddenIsSettledByGet | internal/testcase/case.go:259-278 | where creating it is forbidden, there is an error if and only if a Get is then answered NotFound; otherwise the namespace is taken to have existed |
| NamespaceOutcomes.OtherFailureIsReturned | internal/testcase/case.go:232-235 | any other failure is returned, and nothing is registered |
| Cases.Case.DeleteNamespace | internal/testcase/case.go:168-206 | deletes, tolerating NotFound, and polls until NotFound or the time is up |
| NamespaceOutcomes.DeleteNsExactly | internal/testcase/case.go:186-205 | the namespace is deleted if and only if the call is accepted or answered NotFound, and some look in time then does not find it |
| NamespaceOutcomes.DeleteNsSucceeds | internal/testcase/case.go:168-206 | where calls are answered, deletions take effect at once and nobody else creates it, deleting it succeeds, even where there is none |
| Cases.Case.GetEagerClients | internal/testcase/case.go:362-391 | one client for each kubeconfig path of steps that are not lazy, in any order |
| EagerSetup.EagerPaths | internal/testcase/case.go:362-391 | exactly the empty path and the paths of steps that are not lazy have a client |
| EagerSetup.EagerExactly | internal/testcase/case.go:362-380 | the eager clients can be had if and only if the default client can, and that of the first eager step with each kubeconfig path |
| EagerSetup.AllServedExactly | internal/testcase/case.go:370-380 | setup has for every eager step the client the step itself runs with if and only if all eager steps with one path want the same client, as they do when they name the same context |
| EagerSetup.SetupReaches | internal/testcase/case.go:344-391 | a setup that did not fail made the namespace available through exactly the eager clients; under that condition, through the own client of every eager step |
| EagerSetup.LaterContextIsLost | internal/testcase/case.go:370-380 | two eager steps with one path and different contexts: setup never makes the namespace available through the client of the second |
| Cases.Case.Setup | internal/testcase/case.go:344-356 | creates the namespace through the eager clients up to the first error |
| NamespaceOutcomes.SetupSucceeds | internal/testcase/case.go:344-356 | where calls are answered, setup succeeds and reaches every client |
| NamespaceOutcomes.LazyStepReaches | internal/testcase/case.go:312-326 | a lazy step first makes the namespace available through its own client, and runs in what that leaves |
| NamespaceOutcomes.FailedStart | internal/testcase/case.go:312-326 | a lazy step whose client or namespace cannot be had fails without running |
| Cases.Case.Run | internal/testcase/case.go:297-342 | runs setup and steps up to the first failure, with the clean-ups and reports of the specification, for every order of clients; adds one test case, or one for each step in order, to the suite; only the last report may be failed |
| Cases.Case.RunCleanups | internal/testcase/case.go:237-249 | runs the registered clean-ups, the last first; any that fails marks the test failed |
| NamespaceOutcomes.ObjectCleanup | internal/step/step.go:204-208 | the clean-up of an object fails only if its call does; that the object is gone already is fine |
| NamespaceOutcomes.SuppliedIsKept | internal/testcase/case.go:241-243 | a user-supplied namespace that existed is left alone |
| CaseSafety.CreateNsKeeps | internal/testcase/case.go:215-280 | a registered deletion says that the namespace was not there exactly when this client's own Create succeeded; other clusters are left alone |
| CaseSafety.DeleteNsEnds | internal/testcase/case.go:168-206 | a nil error leaves the namespace absent from the client's cluster; whatever the outcome, it appears nowhere and other clusters are left alone |
| CaseSafety.UserNamespaceRestored | internal/testcase/case.go:168-391 | for every run, setup order and aliasing of clients to clusters: when all clean-ups succeed and the steps that were run left it alone, exactly the clusters that held a user-supplied namespace before hold it after |
| CaseSafety.EphemeralNamespaceGone | internal/testcase/case.go:168-391 | when all clean-ups succeed, an ephemeral namespace is absent from every cluster in which a client made it available: whatever steps, their commands and their clean-ups do to it, and whatever other writers do but create it |
| CaseLog.DeletedOnlyByCreator | internal/testcase/case.go:215-280 | whatever other writers do and whichever calls fail: a user-supplied namespace is deleted through a client only after that client's own Create succeeded in this run |
| CaseLog.RegisteredOnlyByCreator | internal/testcase/case.go:215-252 | whatever steps do to the namespace: a clean-up that deletes a user-supplied one is registered only for a client whose own Create succeeded in this run |
| StepInCase.CaseRestoresNamespace | internal/testcase/case.go:168-342 | the same of cases whose steps are runs of Step.Run, with objects applied by any schedules: when none of these steps resolves or applies the user-supplied namespace, it is restored in every cluster |
| StepInCase.CaseDeletesOnlyItsOwn | internal/testcase/case.go:168-342 | and, whatever other writers do, such a case deletes a user-supplied namespace only through a client that created it |
| StepInCase.CaseRegisteredOnlyByCreator | internal/testcase/case.go:215-252 | and so in every case whose steps are runs of Step.Run |
| CaseSafety.CleanUpsRunBackwards | internal/testcase/case.go:237-249 | clean-ups have the effect of running one by one in the reverse order of registration |
| CaseSafety.ObjectsBeforeNamespace | internal/testcase/case.go:301-327 | the clean-ups of objects a step created run before the deletion of the namespace made available at setup or at that step's lazy start; of its steps this assumes only that they register clean-ups of objects |
| StepInCase.CaseObjectsBeforeNamespace | internal/testcase/case.go:301-327 | and so in every case whose steps are runs of Step.Run, whatever these do to the namespace |
| ObjectsGone.CleanUpAllRemoves | internal/step/step.go:201-212 | when all clean-ups succeed, the object of each of them is gone or its deletion accepted at the end, if nobody else creates it |
| ObjectsGone.CreatedObjectGone | internal/testcase/case.go:237-342 | when all clean-ups of a case succeed, so is every object that a call of a step created while its context was alive |
| CaseSafety.ReportsUpToFailure | internal/testcase/case.go:297-342 | a run reports setup and then its steps in order with their assertions, up to the first failure, and only the last report may be failed |
| Report.Testcase.Finish | internal/report/report.go:166-173 | the end, the elapsed time and the class name are set from the clock and the suite |
| Report.Testsuite.AddTestcase | internal/report/report.go:166-183 | the test case is added, the list sorted by name, and the counters raised; what the suite reports grows by exactly this test case |
| Report.Testsuite.NewSubSuite | internal/report/report.go:199-209 | an empty suite is added and the list sorted by name |
| Report.AnyInterleaving | internal/report/report.go:166-209 | every interleaving of the calls that parallel tests make on a suite, with distinct names, ends in the same strictly sorted suite with the same counters |
| Report.Testsuite.Summarize | internal/report/report.go:213-231 | in place, over the whole tree of suites: the counters become those of the specification and the latest end is returned |
| Report.RolledMatches | internal/report/report.go:213-231 | the in-place roll-up computes the rolled-up tree |
| ReportTree.SummarizedCounts | internal/report/report.go:213-231 | after one roll-up a suite counts all test cases and all failing test cases below it |
| ReportTree.SummarizedEverywhere | internal/report/report.go:213-231 | and so does every suite below it |
| ReportTree.LatestEndIsMaximum | internal/report/report.go:213-231 | the returned end is the maximum of all suite starts and test case ends in the subtree |
| Report.FilledIsOpen | internal/report/report.go:166-231 | suites filled by AddTestcase alone satisfy what the roll-up assumes |
| Report.Testsuite.NewTestReporter | internal/report/report.go:234-243 | test granularity hands out a test case, any other a new sub-suite |
| Report.StepReport.Failure | internal/report/report.go:253-257 | marks the report failed and collects errors |
| Report.StepReport.AddAssertions | internal/report/report.go:259-261 | adds to the assertions |
| Report.StepReport.Populate | internal/report/report.go:263-268 | copies a failure, with the last error as text, and adds the assertions |
| Report.TestReporter.Step | internal/report/report.go:276-280 | appends a fresh report |
| Report.TestReporter.Done | internal/report/report.go:282-297 | at test granularity adds one test case that failed if and only if some step did, with the sum of assertions; otherwise one test case for each report, in order and one locked call each |
| ReportTotals.RunSums | internal/report/report.go:282-297 | a run whose last report alone may be failed counts the same failures as a whole and step by step |
| ReportTotals.AnyFailedExactly | internal/report/report.go:282-297 | the one test case of a run failed if and only if some report of the run did |
| ReportCalls.DoneFills | internal/report/report.go:282-297 | what Done leaves in a new suite is a suite filled with exactly the entries it handed over |
| ReportCalls.CallsByTest | internal/report/report.go:166-183 | every interleaving of the calls by which runs hand one test case each to a new suite ends in the tree of a suite reported by test |
| ReportCalls.CallsBySteps | internal/report/report.go:199-243 | every interleaving of the calls by which runs get a sub-suite each and fill it ends in the tree of a suite reported by step |
| ReportCalls.CallsAgree | internal/report/report.go:234-297 | for any runs that stop at their first failure, and any two interleavings of their calls, a suite filled by test and one filled by step have the same failures and assertions once rolled up |
| ReportCalls.WholeReportsAgree | internal/report/report.go:328-339 | and so have whole reports of many suites, whose totals one Close adds up |
| Report.Testsuites.AddTestSuite | internal/report/report.go:303-312 | the suite is added and the list sorted by name |
| Report.Testsuites.Close | internal/report/report.go:328-339 | every suite is rolled up in place and its counters added to the totals |
| ReportTree.CloseOnce | internal/report/report.go:328-339 | totals are right after one Close, and after a second one if and only if they are zero |
| FileName.MatchSound | internal/file/name.go:47 | what the scanner returns is a reading of the name by the expression |
| FileName.MatchIsLeftmostFirst | internal/file/name.go:47 | any reading by the expression is the one returned, except that a reading with a number is preferred |
| FileName.ParseUndoesPrinting | internal/file/name.go:53-119 | in any directory, Parse undoes the printing of any number below 2^31, leading zeros allowed, name, suffix and extension; the words assert and errors, in any case, tell the type |
| FileName.ParseUnnumbered | internal/file/name.go:53-119 | and so without a number, if the name cannot be read as one with a number |
| FileName.UnknownExactly | internal/file/name.go:53-74 | a file is unusable if and only if its name does not follow the expression, or its number is 2^31 or more |
| FileName.LeadingZero | internal/file/name.go:66-74 | a leading zero does not change the index |
| FileName.LargeIndexIsUnknown | internal/file/name.go:66-74 | an index of 2^31 or more makes the file unusable |
| StepFiles.MatchesAnyPattern | internal/utils/files/files.go:14-22 | true exactly when some pattern matches |
| StepFiles.CollectTestStepFiles | internal/utils/files/files.go:26-68 | the files are grouped by index: exactly the accepted entries, in directory order, directories by their own entries |
| StepFiles.AcceptedExactly | internal/utils/files/files.go:34-46 | an entry belongs to the step of the number its name starts with, if the name follows the expression, the number is below 2^31 and no pattern excludes it |
| StepFiles.StepFilesInOrder | internal/utils/files/files.go:48-64 | the files of a step are those of its accepted entries, in directory order: the file itself, or all that the directory holds |
| StepFiles.LoadStep | internal/testcase/case.go:402-420 | loads the files of one step in order, up to the first error |
| StepFiles.LoadTestSteps | internal/testcase/case.go:394-430 | whatever order the groups are taken in: one loaded step for each index, with strictly increasing indices; an error is that of some group |
| StepFiles.StepsUnique | internal/testcase/case.go:394-430 | there is only one such list of steps, so the order in which groups are taken does not matter |
| Logger.TestLogger.Write | internal/utils/logger.go:57-68 | logs every complete line of buffer and input, and keeps the rest |
| Logger.TestLogger.Flush | internal/utils/logger.go:71-76 | logs the rest, if any, and empties the buffer |
| Logger.TestLogger.WriteAll | internal/utils/logger.go:57-76 | for any cutting of a stream the logged lines are those of the whole stream, the buffer is what follows its last newline, and nothing is lost |
| Logger.ChunkingIndependent | internal/utils/logger.go:57-76 | logging does not depend on how the stream is cut |
| Logger.SplitJoins | internal/utils/logger.go:57-68 | splitting loses no byte and no piece holds a newline |
| Order.Sort | internal/report/report.go:176-178 | sorting by a key is a sorted permutation |
| Order.SortedByUnique | internal/report/report.go:176-178 | with distinct keys there is only one result, whatever the sort does |
| Order.LessExactly | internal/report/report.go:176-178 | names are in the order of a dictionary: a prefix first, and otherwise the smaller character where they first differ |

## Left out

- Kubernetes, CEL, Docker, KIND, YAML and flag libraries: the server is the abstract store, and decoded files, prepared expressions and selector matches are parameters.
- Commands and assertion expressions: only their outcomes appear; so do what a command changes in the cluster, the calls an expression makes, and the command budget of 0 that means no limit (internal/utils/commands.go).
- The clearing of `Background` on a copy of each command (internal/step/step.go:470-475): it has no effect.
- Updates in place of API objects: objects are values. `Namespaced` and `prune` return new ones where the code changes a map, and what CreateOrUpdate writes back into its argument is not modelled.
- Go types of values other than those of decoded JSON (typed slices, NaN, nil slices and maps).
- Error wording, differences as text, log prefixes, collectors, event collection, and writing report files.
- Elapsed times of suites, and the formatting of durations; the elapsed time of a test case is a number.
- Case folding outside ASCII in kinds, and apiVersion strings that do not parse.
- The joining of paths: a directory, a slash and a name.
- The server's mechanics: it refuses to create an object that names a resource version; an accepted write gets a version never used for its key, or none when it changes nothing; defaults and admission only add fields.
- The wrappers that retry single calls on JSON syntax errors (internal/kubernetes/retry_client.go:166-259): a call is one answer of the server.
- The liveness of retry: a server that never answers is possible.
- Harness start-up and tear-down, environment and template expansion, kubeconfig files, watch and status clients.
- The state of a step after LoadYAML returned an error.
- Order.Sort: elements with equal keys may come out in any order in the code; the method keeps theirs, and the other modules use only what its contract says.
- Steps.Step.Run: what commands do, the schedule of each CreateOrUpdate call, the number of polls and the clock are parameters, and the collectors that run after a failure are not modelled.
- Cases.Case.Run: the run of a single step is a parameter here; StepInCase puts the runs of Steps.Step.Run in its place.
- CaseSafety.UserNamespaceRestored: assumes that other writers leave the namespace alone and that the steps that are run do, as a test may well delete its own namespace; StepInCase proves the latter of steps that neither resolve nor apply it.
- CaseSafety.EphemeralNamespaceGone: assumes that no other writer creates the namespace.
- CaseLog.DeletedOnlyByCreator: assumes that no step that is run deletes the test's namespace; StepInCase proves it of steps that do not resolve it, and CaseLog.RegisteredOnlyByCreator does without it.
- StepInCase.CaseRestoresNamespace: what commands and expressions change in the cluster is not modelled, and a write that an abandoned attempt makes after its call returned counts as another writer's.
- Cases.Case.DeleteNamespace: without a timeout the code may poll forever; here the number of polls is given.
- Report.Testsuite.Summarize: assumes that no suite is its own descendant or shared, as is so for suites made by NewSubSuite.
- AssertApplied.AppliedObjectPasses: is about objects whose namespace is filled in, as it is when a step applies them, and after an update about objects without nulls under object keys.
- Lookup.LookupAgreesWithScan: that a named lookup of a namespaced kind without any namespace is answered NotFound, and not with another error, is a choice of this model; the client library is not part of it. With another error the positive assertion would fail just the same, and the negative one would fail instead of passing.
- Loading.LoadedStep: assumes that no TestStep is behind a TestStep's apply paths and no TestAssert behind its assert paths.
