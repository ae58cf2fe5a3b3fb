# Verification models of AGX

Dafny models of the parts of AGX that are protocols or algorithms with sharp promises, and proofs of those
promises over every input, run or interleaving. `dafny verify dfyconfig.toml` checks them all.

| files | what they model |
|---|---|
| `Providers`, `Ownership`, `ProviderTargets`, `Activation` | initialization, compensation and uninitialization of the two plugin managers, as runs against a host whose commands may fail after taking effect and whose process may stop |
| `EvidenceTypes`, `EvidenceRules`, `EvidenceTheorems`, `EvidenceOrder`, `EvidenceEvaluator` | the evidence evaluator: what an evaluation means, the imperative evaluation itself, and the theorems about it |
| `Publication` | create-only publication of a fleet profile by any number of processes |
| `FileTree`, `Install`, `Apply` | apply, status and uninstall of the local installation on a file tree |
| `JsonText`, `JsonScanner`, `JsonScanned` | JSON texts in every way of writing them, the duplicate-key scanner, and its correctness |
| `ShellWords`, `CommandLine`, `InitOptions` | how shells split words, the printed `agx init` command, and the option parser that reads it back |
| `Manifest`, `Seed` | the bootstrap manifest bytes and the order-independent seed digest |
| `Supersedes`, `SupersedesChains` | supersede chains on possibly cyclic or incomplete revision sets |
| `LaunchPlan`, `Confirmation` | launch plans and their histories, and concurrent callers of one plan |
| `GitHubProjects`, `ProjectProvisioning` | resumable provisioning of the Installation's GitHub Project |
| `MemoizingRunner` | the command cache of one status operation |

The external systems are ports: methods that may fail before or after taking effect, and, where the program
can be stopped, may end the process. A host, disk, GitHub or journal that is `reliable` never fails; results about
it say what the operations then achieve, beside the safety results that hold on all of them. The standing
assumptions are: a command that reports success took effect; what can be read is true and complete; nobody else
edits the plugin managers or the Project meanwhile; and compensation together with the receipt write that
ends it is one step. All runs of one history use the same canonical plugin source.

## What turned out not to hold as it stands

- The order of observations does show in one place: when several observations are invalid in different ways, the
  message of the one invalid-observation diagnostic is that of the first. `EvidenceOrder` gives the exact condition
  under which order never shows, and a pair of orders that differ.
- The freshness interval is about relevant observations and leaves out the zero instant, which the evaluator refuses
  as an evaluation time.
- A failed compensation is not always marked for manual cleanup: in an evidence-bound deployment that did not get to its
  last provider the shortened receipt does not match the binding and cannot be written. The intent stays on file, the
  next run is not refused, and nothing says that something was left behind. `Activation.Recover` gives the exact
  condition, `FailedCleanupIsForgotten` the input; what is left behind is still accounted for.
- On Windows a printed command does not read back if an argument has a typographic single quote, which PowerShell takes
  for a quote like the straight one. `CommandLine.QuotingRoundTrip` has the condition, `ApostropheIsLost` an input.
- The scanner for repeated keys does not find every malformed text: `JsonScanned.ScannerTakesMore` shows two. What it and
  the strict parser accept together is exact.
- The command cache takes API calls for reads that carry a body flag written together with its value, or after the method:
  `MemoizingRunner.BodiesAreOverlooked` and the exact condition `ReadWithoutBodyExactly`.
- A chosen value equal to `--apply` suppresses the appended flag, and one equal to `--guided` makes the printed command
  a guided run. `InitOptions.GuidedRoundTrip` states both exactly.
- The mirror law of supersede chains fails for an id that is not in the loaded set: it can have successors but is
  nobody's predecessor. `SupersedesChains.UnknownHasNoMirror` shows one; the law is proved with that condition.
- The seed digest of a list with two different files under one path depends on the listing, because the sort is
  not stable; the seed validation excludes that case.
- Confirmation is one-shot for what is recorded, not for what is run: two launches can both run the process before
  either saves, and so can a second one after a first that ran the process and stopped before saving. At most one
  process runs if launches are let in one at a time, counting one that stopped; `Confirmation.LetInExactly` shows that
  nothing less will do.
- A Project whose visibility was changed by an edit that was never journaled cannot be resumed: revalidation compares
  the receipt's old visibility and refuses, changing nothing. Nor can one that was created and never journaled: it
  collides with every later run. `ProjectProvisioning.ProvisionRun` gives the exact condition under which a run
  succeeds, and `StuckForGood` shows that no later run meets it once one does not.

## Model

| member | source | states |
|---|---|---|
| `Activation.RunHistory` | internal/activation/activation.go:612-755 | over every sequence of deployment runs, provider-only runs and uninitializations, failing, stopping and resumed anywhere, the receipt file accounts for the whole difference to the starting state: what AGX added is in it, nothing that pre-existed is in it or was removed, and, unless it is marked for manual cleanup, a later provider differs only if every earlier one is complete; the starting state is that after the last provider-only run that ended before its receipt was there, and the first one if there was none |
| `Activation.HistoryThenUninitialize` | internal/activation/activation.go:1220-1315 | after any such history, an uninitialization that succeeds or only retains pre-existing Marketplaces leaves both managers exactly as they were in that starting state |
| `Activation.InitializeThenUninitialize` | internal/activation/activation.go:818-914 | provider-only initialization followed by any number of uninitializations restores the starting state once one returns true; where nothing fails and no Marketplace pre-existed, the first one does |
| `Activation.InitializeTwice` | internal/activation/activation.go:612-623 | where nothing fails, an acceptable run initializes and the next identical one reports the same receipt and changes nothing |
| `Activation.InitializeDeployment` | internal/activation/activation.go:612-755 | one run keeps the ownership invariant; a starting state that is not acceptable, or whose repositories or Project do not pass their checks, is rejected with nothing changed; where nothing fails a run succeeds if and only if the state passes and, if the receipt says initialized, everything recorded is there; an initialized receipt claims exactly what was missing at the start; a rolled-back run is back at the start with an empty resumable receipt; after a failed compensation the receipt is marked for manual cleanup, and the next run refused, except in an evidence-bound deployment that did not get to its last provider |
| `Activation.ActivateCurrent` | internal/activation/activation.go:687-755 | the provider half: fresh inventories, merged ownership, written intent, then activation; same guarantees, what a failed compensation leaves on file, and success where nothing fails and every provider is usable |
| `Activation.ActivateAndRecord` | internal/activation/activation.go:716-755 | intent first, then activation, then readback; a failure ends compensated with the receipt emptied, or uncompensated with exactly the receipt of `AfterFailedCleanup` on file and the providers not got to as at the start; the invariant holds at each point the process may stop |
| `Activation.PrepareDeployment` | internal/activation/activation.go:342-488 | the read-only gate lets through only a receipt of the same deployment that is not marked for manual cleanup, only with every selected provider usable and the repository and Project checks passed, and all of those where nothing fails |
| `Activation.ProvisionRemote` | internal/activation/activation.go:640-687 | repository and Project steps change nothing but their own parts of the receipt, and end with the Project recorded |
| `Activation.IntentIsReady` | internal/activation/activation.go:699-717 | the declared intent, merged from earlier ownership and a fresh plan, is honest about every provider, valid, and in provider order |
| `Activation.Recover` | internal/activation/activation.go:719-732 | after a failed activation the managers are exactly at the start and the receipt is emptied, or the shortened receipt is on file marked for manual cleanup, or, exactly if an evidence binding names more providers than were got to, the intent stays on file unmarked; in every case the receipt accounts for the managers |
| `Activation.ShortenedIsValidExactly` | internal/activation/activation.go:1587-1595 | the receipt of a failed compensation can be written if and only if no evidence binding names more providers than it holds |
| `Activation.FailedCleanupIsForgotten` | internal/activation/activation.go:719-732 | two providers of an evidence-bound deployment, the first failing with its Marketplace left behind: the intent stays on file without a mark, and the next run accepts it |
| `Activation.ForgottenCleanupIsResumed` | internal/activation/activation.go:414-420 | and that next run, on a host where nothing fails, ends initialized |
| `Activation.ShrunkIntent` | internal/activation/activation.go:720-730 | the shortened receipt of a failed activation keeps the ownership invariant, and where it is not valid the longer intent does |
| `Activation.ActivateDeploymentProviders` | internal/activation/activation.go:784-804 | activation in order: at every point each receipt accounts for its provider, a later provider is touched only when every earlier one is complete, and a failure at an index leaves all later providers untouched |
| `Activation.ActivateNext` | internal/activation/activation.go:785-801 | one provider more is complete, or the failure yields the receipts up to it and the later providers are as at the start |
| `Activation.ActivateProvider` | internal/activation/activation.go:786-800 | one provider: complete on success, accounted for by the receipt with the attempted plugin on failure, untouched if it was complete already |
| `Activation.StillUntouched` | internal/activation/activation.go:784-804 | touching a provider whose predecessors are complete keeps the order in which providers may differ from the start |
| `Activation.CandidateReceipts` | internal/activation/activation.go:1380-1390 | the receipts up to the failed provider, the last one with the attempted plugin claimed once |
| `Activation.CompensateProvider` | internal/activation/activation.go:1329-1378 | removes nothing the receipt does not claim; reported success means the state without exactly the claimed part; where nothing fails and the source is not foreign it does succeed |
| `Activation.Compensate` | internal/activation/activation.go:1329-1378 | each receipt is undone as if it were the only one: never more than it claims, and where nothing fails exactly that, whatever became of the others, unless its own Marketplace is foreign; other providers are untouched; success means every receipt undone and none foreign |
| `Activation.CompleteIsFulfilled` | internal/activation/activation.go:736-755 | an honest receipt of complete providers claims exactly what was missing at the start |
| `Activation.InitializeProvidersOnly` | internal/activation/activation.go:818-914 | rejected and rolled-back runs leave every manager and the absent receipt as they were; success is exact ownership; incomplete cleanup is on file and accounted for; a run that ends without its receipt leaves no more than the receipts it held account for; where nothing fails and every provider is usable it succeeds |
| `Activation.ActivateAll` | internal/activation/activation.go:889-905 | the receipts returned claim all that was done, including the attempted plugin, in provider order |
| `Activation.ActivateAlone` | internal/activation/activation.go:889-905 | one provider of a provider-only run is added to the claims |
| `Activation.FailedInitialization` | internal/activation/activation.go:1317-1327 | the failed provider-only run is undone completely with nothing recorded, or what is left is recorded, or, where that write fails or the process stops, nothing is on file and what is left is no more than the receipts account for |
| `Activation.Uninitialize` | internal/activation/activation.go:1220-1315 | a foreign source of any recorded provider stops it before the first removal; otherwise it removes exactly what the receipt claims; true means back at the start with the receipt gone; retained names are the pre-existing Marketplaces, last provider first; every interruption keeps the receipt and the invariant; where nothing fails and nothing is foreign it completes |
| `Activation.CleanAll` | internal/activation/activation.go:1250-1299 | cleaning last provider first keeps the ownership invariant after every command, so a stopped cleanup can be rerun |
| `Activation.CleanProvider` | internal/activation/activation.go:1252-1298 | one provider loses only what is claimed, and on success exactly that |
| `Activation.CleaningKeepsInvariant` | internal/activation/activation.go:1250-1299 | partial removal from the last touched provider keeps the whole invariant |
| `Activation.VerifyReceipt` | internal/activation/activation.go:1392-1412 | a match means every recorded provider is complete, and where nothing fails complete providers match |
| `Activation.NormalizeProviders` | internal/activation/activation.go:1452-1470 | an empty list is refused; any other becomes its providers, each once, in fixed order |
| `Ownership.StrippedRestores` | internal/activation/activation.go:1329-1378 | taking away what an honest receipt claims gives the starting state back |
| `Ownership.AllStripped` | internal/activation/activation.go:1329-1378 | the same for all providers at once |
| `Ownership.OwnershipIsExact` | internal/activation/activation.go:757-782 | on a complete provider, the claims are exactly the selected plugins and the Marketplace that were not there |
| `Ownership.TruncationIsSafeExactlyWhenUntouched` | internal/activation/activation.go:1380-1390 | forgetting later receipts loses nothing if and only if those providers are as they were |
| `ProviderTargets.PrepareProviderTargets` | internal/activation/activation.go:757-782 | plans from the inventories as they are, refuses foreign sources and disabled plugins, and plans every usable provider where nothing fails |
| `ProviderTargets.PlanInstallations` | internal/activation/activation.go:768-778 | what is missing, in selection order, unless a selected plugin is there and disabled |
| `ProviderTargets.MissingPlugins` | internal/activation/activation.go:768-778 | exactly the selected plugins that are not installed |
| `ProviderTargets.MergeProviderOwnership` | internal/activation/activation.go:806-816 | earlier ownership replaces the new plan provider by provider |
| `ProviderTargets.DeclareIntent` | internal/activation/activation.go:703-713 | every plugin to be installed is claimed once before the first mutation |
| `Providers.Plugins` | internal/activation/activation.go:68-82 | the plugins of a profile, without repeats |
| `Providers.Host.WriteReceipt` | internal/activation/activation.go:1715-1731 | only valid receipts reach the file, and a reported failure left it as it was |
| `Providers.Host.ReadReceipt` | internal/activation/activation.go:1484-1518 | what is read is what was written, and valid |
| `EvidenceTheorems.VerifiedExactly` | internal/domain/evidence.go:285-429 | `verified` if and only if the input is well formed, sources agree with kinds, no two distinct observations share an identity, every relevant observation is bound, matched, fresh and alone of its kind, all revisions agree and every requirement is met |
| `EvidenceTheorems.VerifiedHappens` | internal/domain/evidence.go:285-429 | the conditions can be met: one observation for each requirement of a delivery is verified |
| `EvidenceTheorems.PreflightExactly` | internal/domain/evidence.go:443-506 | the preflight phase raises nothing exactly on well-formed inputs |
| `EvidenceTheorems.FreshnessInterval` | internal/domain/evidence.go:352-361 | a verified input is verified exactly from its latest relevant observation to fifteen minutes after its earliest one, half open |
| `EvidenceTheorems.PhaseSplit` | internal/domain/evidence.go:416-428 | no diagnostics and nothing missing is `verified`, no diagnostics and something missing is `awaiting_verification`, and nothing else is either; the last fallback phase is never reached |
| `EvidenceTheorems.RequirementsArePartitioned` | internal/domain/evidence.go:394-415 | satisfied and missing split the requirement table in its order; past preflight a requirement is satisfied exactly if one of its kinds is on offer, and its evidence is an unblocked, sole observation of such a kind |
| `EvidenceTheorems.ConflictExactly` | internal/domain/evidence.go:305-320 | no conflict exactly if equal source, kind and ref mean equal observations |
| `EvidenceTheorems.UnblockedExactly` | internal/domain/evidence.go:328-363 | no blockers exactly if every relevant observation is bound, matched and fresh |
| `EvidenceOrder.OrderIndependentExactly` | internal/domain/evidence.go:285-429 | no reordering of the observations changes the assessment if and only if all invalid observations give the same first message |
| `EvidenceOrder.SameObservationsSameAssessment` | internal/domain/evidence.go:285-429 | under that condition repetition changes nothing either |
| `EvidenceOrder.OrderCanShow` | internal/domain/evidence.go:475-506 | two orders of one pair of invalid observations with different diagnostics |
| `EvidenceEvaluator.EvaluateEvidence` | internal/domain/evidence.go:285-429 | the step-by-step evaluation, with its maps visited in any order, yields a receipt that shows exactly the assessment |
| `EvidenceEvaluator.RendersUnique` | internal/domain/evidence.go:285-429 | there is only one such receipt, so map order cannot show |
| `EvidenceEvaluator.DedupeDiagnostics` | internal/domain/evidence.go:704-726 | the first diagnostic of each code, sorted, and no other |
| `EvidenceEvaluator.SortObservations` | internal/domain/evidence.go:300-301 | sorting keeps the observations and their number |
| `EvidenceEvaluator.ValidateEvaluationEnvelope` | internal/domain/evidence.go:443-473 | the diagnostics of the header and of every observation, each code once |
| `EvidenceEvaluator.NormalizeInputDiagnostics` | internal/domain/evidence.go:674-687 | supplied diagnostics become preflight diagnostics of known codes |
| `EvidenceEvaluator.IndexIdentities` | internal/domain/evidence.go:302-325 | after the identity pass the index holds one observation per unambiguous identity and every conflict is diagnosed |
| `EvidenceEvaluator.CheckCandidates` | internal/domain/evidence.go:326-363 | grouped candidates are exactly the unblocked ones, and the diagnostics exactly the blockers |
| `EvidenceEvaluator.KeepSingles` | internal/domain/evidence.go:369-375 | kinds with several candidates are dropped and reported, the others keep their one |
| `EvidenceEvaluator.CompareRevisions` | internal/domain/evidence.go:377-392 | a mismatch is found exactly if two revision-bearing candidates differ |
| `EvidenceEvaluator.SelectEvidence` | internal/domain/evidence.go:394-415 | selection follows the requirement table |
| `EvidenceEvaluator.FinalPhaseExactly` | internal/domain/evidence.go:416-428 | the precedence of phases, as a function of what was found |
| `EvidenceEvaluator.FinalPhase` | internal/domain/evidence.go:416-428 | the flags collected by the run give the phase of the assessment |
| `Publication.Linearizable` | internal/fleet/lifecycle.go:110-136 | in every interleaving of any number of applies, with any failures, the history is one of a write-once register, in the order of the deciding steps |
| `Publication.HistoryIsFaithful` | internal/fleet/lifecycle.go:110-136 | that history holds exactly the completed calls with the results they returned |
| `Publication.EventIsRegister` | internal/fleet/lifecycle.go:143-159 | each deciding step is one register operation on the profile published at that moment |
| `Publication.PublishedNeverChanges` | internal/metadatafile/atomic.go:92-159 | once linked, the published bytes never change |
| `Publication.OutcomeAgreesWithPublished` | internal/fleet/lifecycle.go:119-136 | every call that got that far returns the judgement of the published profile, and the read-back-missing branch is never taken |
| `Publication.PublishedIsOneOfTheirs` | internal/fleet/lifecycle.go:229-242 | what is published is the encoding of some caller's valid profile |
| `Publication.DriftExactly` | internal/fleet/lifecycle.go:143-159 | a completed call succeeds with its own digest if it equals the published one, and gets the drift error if not |
| `Publication.RunKeepsInv` | internal/metadatafile/atomic.go:92-159 | in every interleaving temporary files are private, complete before linking, and never the target |
| `Install.Uninstall` | internal/install/install.go:277-373 | without a receipt nothing happens; if any owned file is unsafe or changed nothing is removed; otherwise, undisturbed, the surviving tree is exactly the original without owned files, receipt and emptied candidate directories; whatever else runs, only permitted paths are removed |
| `Install.PassIsExact` | internal/install/install.go:351-362 | one deepest-first pass over the candidates reaches the fixpoint of removing empty ones |
| `Install.EmptyExactlyIfOnlyOurs` | internal/install/install.go:351-361 | at its turn a candidate is empty exactly if only owned things were below it |
| `Install.NothingEmptyIsLeft` | internal/install/install.go:351-362 | every candidate that survives still holds something unknown |
| `Install.OthersSurvive` | internal/install/install.go:277-373 | no unknown path is removed |
| `Install.Preflight` | internal/install/install.go:290-316 | it refuses exactly if some owned file is in a blocking state, and otherwise lists exactly the owned files that are there |
| `Install.RemoveOwnedFiles` | internal/install/install.go:317-338 | removes exactly the listed files, each after looking at it again |
| `Install.RemoveOwnedFile` | internal/install/install.go:318-337 | a file is removed only if it is still intact at that moment |
| `Install.RemoveCandidates` | internal/install/install.go:351-361 | after the pass every candidate is decided and nothing else is gone |
| `Install.RemoveDirectories` | internal/install/install.go:351-362 | the pass and the root leave exactly the survivors |
| `Install.OwnedDirectoryCandidates` | internal/install/install.go:674-696 | exactly the directories above owned files and the metadata directory, deepest first, each once |
| `Install.InspectOwnedFile` | internal/install/install.go:595-638 | present, missing or unsafe, decided along the whole way down |
| `Install.GetStatus` | internal/install/install.go:245-275 | absent, configured exactly if every owned file is intact, drifted with exactly the missing and the modified ones |
| `Install.ReadReceipt` | internal/install/install.go:721-838 | succeeds exactly if a readable valid receipt is there |
| `Apply.ApplyBundle` | internal/install/install.go:119-243 | on an absent root it installs if and only if the archive can be unpacked and holds a regular file, and the tree is then exactly the archive plus runtime and receipt, each file with its content; on an existing root it changes nothing and succeeds if and only if the same bundle is there intact; every error leaves the root as it was |
| `Apply.ApplyThenUninstall` | internal/install/install.go:119-373 | apply, status, uninstall on an absent root: exactly the bundle and configured in between; afterwards exactly the archive's directories without a regular entry below, with their ancestors |
| `Apply.LeftoversExactly` | internal/install/install.go:351-362 | what survives a fresh installation is exactly the fileless directories and what is above them |
| `Apply.FilelessExactly` | internal/install/install.go:470-521 | in a tree that is exactly a bundle, the directories without files at any depth are those of the archive without a regular entry below |
| `Apply.LaidIsUnique` | internal/install/install.go:132-238 | a bundle and its receipt determine the whole tree, paths and contents |
| `Apply.Extract` | internal/install/install.go:456-523 | an archive unpacks if and only if every entry has a safe name, size and type and a place left for it, and then leaves exactly its entries with everything above them |
| `Apply.ExtractOne` | internal/install/install.go:470-521 | one entry fits or does not, and adds exactly itself |
| `Apply.PlacementStaysInside` | internal/install/install.go:473-487 | no entry name, however written, leads outside the component |
| `Apply.BuildStage` | internal/install/install.go:132-238 | the staged tree is exactly the archive, the runtime at its place and the receipt, with the directories above them; it is intact and its receipt accounts for every file |
| `Apply.StageReceipt` | internal/install/install.go:173-238 | adds exactly the receipt with its directory; it can be read back and its digests are those of the staged files |
| `Apply.StageRuntime` | internal/install/install.go:182-229 | adds exactly the runtime, if there is one, beside the component |
| `JsonScanned.MalformedExactly` | packages/control-plane/src/domain/deployment-input.ts:39-87 | for every JSON value, printed with any white space and any escapes, the text is malformed exactly if some object repeats a key after unescaping, and otherwise the cursor ends at the end |
| `JsonScanned.AcceptedExactly` | packages/control-plane/src/domain/deployment-input.ts:100-101 | scanner and strict parser together accept exactly the texts that write a value in which no object repeats a key |
| `JsonScanned.RepetitionIsOfTheText` | packages/control-plane/src/domain/deployment-input.ts:53-63 | two ways of reading one text agree on whether a key is repeated |
| `JsonScanned.ScannerTakesMore` | packages/control-plane/src/domain/deployment-input.ts:38-87 | the scanner alone lets texts pass that are not JSON: a control character in a string, and white space that JSON does not have |
| `JsonScanned.ValueScanned` | packages/control-plane/src/domain/deployment-input.ts:51-84 | the scan of a printed value ends right after it, or fails exactly on a repeated key |
| `JsonScanned.KeyRead` | packages/control-plane/src/domain/deployment-input.ts:57-61 | the slice between the quotes decodes to the key the escapes stand for |
| `JsonScanned.NumberPassed` | packages/control-plane/src/domain/deployment-input.ts:82-84 | the literal pattern ends exactly where a printed number does |
| `JsonText.DistinctInMembersExactly` | packages/control-plane/src/domain/deployment-input.ts:53-63 | collecting keys in one growing set finds a repetition exactly if the keys are not pairwise distinct |
| `JsonScanner.MalformedJson` | packages/control-plane/src/domain/deployment-input.ts:39-87 | the scanner object computes the cursor functions the results above are about |
| `JsonScanner.Scanner.ParseValue` | packages/control-plane/src/domain/deployment-input.ts:51-84 | the cursor moves exactly as the functions say, on every text |
| `JsonScanner.Scanner.StringValue` | packages/control-plane/src/domain/deployment-input.ts:42-50 | the cursor stops after the first quote that is not escaped |
| `CommandLine.QuotingRoundTrip` | internal/cli/cli.go:384-414 | splitting the quoted line gives the argument list back: by the POSIX shell for every list, by PowerShell if and only if no argument has a typographic single quote |
| `CommandLine.WindowsLost` | internal/cli/cli.go:388-390 | from the first typographic quote of a quoted argument on, the word PowerShell reads falls behind the argument and never equals it |
| `CommandLine.ApostropheIsLost` | internal/cli/cli.go:388-390 | a root path with a typographic apostrophe is such an argument |
| `CommandLine.PosixQuoted` | internal/cli/cli.go:391 | the five-character escape of a quote puts exactly that quote into the word |
| `CommandLine.WindowsQuoted` | internal/cli/cli.go:388-390 | without typographic quotes, doubled quotes read back as one and the closing quote ends the word |
| `CommandLine.FormatInitCommand` | internal/cli/cli.go:359-378 | the printed line is the quoted command with `--apply` appended unless it is already an argument |
| `InitOptions.GuidedRoundTrip` | internal/cli/guided_init.go:456-475 | the printed command splits into its arguments, in PowerShell if and only if no chosen value has a typographic single quote; from the arguments every chosen value is read back under its option; they apply the plan exactly if no chosen value is `--apply`, and are guided again exactly if one is `--guided` |
| `InitOptions.RerunApplies` | internal/cli/cli.go:359-372 | a dry run's printed command repeats its options, with `--apply` unless an argument already is that word |
| `InitOptions.ParseExactly` | internal/cli/cli.go:1090-1111 | the parser accepts exactly the lists made of allowed settings, each in its form and once, and returns exactly those |
| `InitOptions.ParseNamedOptions` | internal/cli/cli.go:1090-1111 | the loop with its two maps computes that parse |
| `Manifest.FrameIsInjective` | internal/bootstrap/bootstrap.go:319-332 | two file lists with parts shorter than 2^64 have the same manifest bytes only if they are the same list |
| `Manifest.DecodeRoundTrip` | internal/bootstrap/bootstrap.go:319-332 | the hashed bytes can be taken apart again into the files |
| `Manifest.ManifestDigest` | internal/bootstrap/bootstrap.go:319-332 | the loop over one reused length buffer hashes exactly that frame |
| `Manifest.PutUint64` | internal/bootstrap/bootstrap.go:324-327 | the buffer holds the length, most significant byte first |
| `Seed.OrderIndependentExactly` | internal/repository/repository.go:538-556 | the seed digest depends only on which files there are if and only if no path names two different files |
| `Seed.SeedMatchesTemplateExactly` | internal/repository/repository.go:538-556 | a seed has the digest of a strictly sorted template exactly if it has the same files in any order |
| `Seed.SeedDigest` | internal/repository/repository.go:541-556 | the digest is the manifest digest of some path-sorted order of the files |
| `Seed.ValidateRendered` | internal/bootstrap/bootstrap.go:296-316 | accepted exactly if strictly sorted from a non-empty first path and carrying the digest of the files |
| `Seed.ValidateSeed` | internal/repository/repository.go:518-535 | a seed is accepted exactly if no two paths fold together and the digest is that of its files, and then its digest does not depend on order |
| `SupersedesChains.ChainsMirror` | packages/control-plane/src/domain/config.ts:226-288 | x is a predecessor of y exactly if y is a successor of x and x exists |
| `SupersedesChains.UnknownHasNoMirror` | packages/control-plane/src/domain/config.ts:226-288 | the condition is needed: an id that is not there can have a successor that does not have it as a predecessor |
| `SupersedesChains.SameChainExactly` | packages/control-plane/src/domain/config.ts:226-288 | every revision of a chain has that same chain exactly if no revision is on both sides of it |
| `SupersedesChains.AcyclicAgree` | packages/control-plane/src/domain/config.ts:226-288 | on acyclic data every member of a chain yields the same full chain |
| `SupersedesChains.BothSidesIsACycle` | packages/control-plane/src/domain/config.ts:240-260 | only on a cycle is anything on both sides |
| `SupersedesChains.ChainIsLinked` | packages/control-plane/src/domain/config.ts:239-285 | each revision of a chain supersedes the one before it, on any data |
| `SupersedesChains.ChainEnds` | packages/control-plane/src/domain/config.ts:239-258 | the oldest end supersedes nothing, or something missing that is reported, or something already in the chain; no missing successor is ever reported |
| `SupersedesChains.WalkFollows` | packages/control-plane/src/domain/config.ts:239-285 | a walk follows the links, never repeats an id and never leaves the known ones, cyclic data included |
| `SupersedesChains.StepsAreWalked` | packages/control-plane/src/domain/config.ts:239-285 | a walk reaches every known id that any number of links leads to |
| `Supersedes.BuildSupersedesChain` | packages/control-plane/src/domain/config.ts:226-288 | both loops terminate on any data and compute those walks |
| `Supersedes.WalkBack` | packages/control-plane/src/domain/config.ts:239-258 | oldest first by prepending |
| `Supersedes.WalkOn` | packages/control-plane/src/domain/config.ts:261-285 | nearest first by appending |
| `Supersedes.NeverMissing` | packages/control-plane/src/domain/config.ts:273-279 | the defensive branch for a missing successor is never taken |
| `LaunchPlan.HistoryIsSound` | packages/control-plane/src/domain/activation.ts:124-249 | every reachable plan took at most five events; succeeded, degraded and incomplete carry their own observed outcome; a known outcome implies a known confirmation; cancelled implies neither |
| `LaunchPlan.StatusExactly` | packages/control-plane/src/domain/activation.ts:267-280 | the status is `applied` (or `degraded`) exactly of plans prepared, confirmed by their own token, started and so observed, then switched away from at most once |
| `LaunchPlan.HistoryIsKnown` | packages/control-plane/src/domain/activation.ts:173-249 | phase and outcome determine the path that led there |
| `LaunchPlan.TransitionMovesForward` | packages/control-plane/src/domain/activation.ts:173-249 | every accepted event strictly advances the plan and leaves its identity alone |
| `Confirmation.OneShot` | packages/control-plane/src/application/launch.ts:199-390 | in every interleaving of confirm, reject, launch and switch callers: the stored plan is the result of at most five accepted events, at most one confirm or reject returns, at most one launch saves anything, and the stored outcome is the one it recorded |
| `Confirmation.OnlyTransitions` | packages/control-plane/src/application/launch.ts:199-205 | every step leaves the stored plan alone or moves it along one accepted event |
| `Confirmation.NotTurnedAway` | packages/control-plane/src/application/launch.ts:207-241 | while a plan still waits, no confirm or reject has failed |
| `Confirmation.StepKeepsInv` | packages/control-plane/src/adapters/sqlite/launch-repository.ts:193-217 | the conditional update finds either the plan the caller read or a later phase |
| `Confirmation.SwitchKeepsInv` | packages/control-plane/src/application/launch.ts:483-500 | the unconditional save of a switch finds the plan as read, or already switched |
| `Confirmation.TwoProcessesOneRecord` | packages/control-plane/src/application/launch.ts:350-378 | two launches can both run the process before either saves |
| `Confirmation.OneProcessIfOneAtATime` | packages/control-plane/src/application/launch.ts:278-390 | in every schedule that lets a launch in only while no other has read the plan without saving, at most one process runs |
| `Confirmation.LetInExactly` | packages/control-plane/src/application/launch.ts:278-390 | after any such schedule one more launch can be let in without a second process ever running if and only if no other launch is active, one that stopped before saving included |
| `Confirmation.CanSpawnExactly` | packages/control-plane/src/application/launch.ts:278-390 | another process can still run if and only if some launch has read the plan and not run it, or one has not begun and the plan is being applied or can still be confirmed |
| `ProjectProvisioning.ProvisionHistory` | internal/project/project.go:76-231 | over any number of runs, each failing or stopping anywhere, at most one Project is ever created and every receipt ever written is valid and names it |
| `ProjectProvisioning.NoCreateAfterReceipt` | internal/project/project.go:146-151 | once a receipt exists no run issues a create |
| `ProjectProvisioning.Provision` | internal/project/project.go:76-231 | success means that the Project is linked and has the wanted visibility, and that the receipt on file says so; where nothing fails a call with a receipt succeeds exactly if its visibility is still the Project's, and one without exactly if no title collides; in the other cases the call ends with nothing changed |
| `ProjectProvisioning.ProvisionRun` | internal/activation/activation.go:667-687 | what a failed call hands back is written again, last, and is on file where the journal works; where nothing fails a run succeeds exactly if it is passable: the receipt is current, or there is neither receipt nor collision |
| `ProjectProvisioning.StuckForGood` | internal/activation/activation.go:667-687 | a run that is not passable changes nothing, so no number of further runs ever succeeds |
| `ProjectProvisioning.EditLeavesReceiptBehind` | internal/project/project.go:153-201 | after an edit that took effect, a receipt not rewritten is current exactly if it already had the wanted visibility |
| `ProjectProvisioning.EditWithoutJournal` | internal/project/project.go:153-201 | such a state: the created Project's receipt is on file and no longer current |
| `ProjectProvisioning.CreateProject` | internal/project/project.go:89-145 | at most one create, none over a collision, where nothing is written either; a call that goes on has the receipt of the Project it made on file |
| `ProjectProvisioning.ConfirmCreated` | internal/project/project.go:129-145 | the receipt of the new Project is written first, and handed back if the readback fails |
| `ProjectProvisioning.RecoverCreate` | internal/project/project.go:93-119 | if the inventory can be read and has exactly one Project with the title and owner, its receipt is written and handed back, and it names the Project that the create made; in every other case nothing is written or handed back |
| `ProjectProvisioning.ChangeVisibility` | internal/project/project.go:153-201 | at most one receipt is written, after the edit, and it has the wanted visibility and is what the Project then is; a run that goes on has written the receipt it goes on with |
| `ProjectProvisioning.LinkAndVerify` | internal/project/project.go:203-230 | every receipt written that says linked is right about it; success means the link, the visibility wanted and the receipt are all there as read back, and where nothing fails it succeeds |
| `ProjectProvisioning.Revalidate` | internal/project/project.go:318-344 | passes only receipts that still say what the Project is, and where nothing fails all of those |
| `ProjectProvisioning.Preflight` | internal/project/project.go:235-264 | passes only if no title collides, and where nothing fails then always |
| `ProjectProvisioning.FindTargetProject` | internal/project/project.go:266-288 | whenever the inventory can be read: the one Project with the title and owner, none if there is none, and an error exactly if there are several |
| `MemoizingRunner.RunAll` | internal/activation/memoizing_runner.go:43-55 | over every sequence of commands, with the caller overwriting every output, each answer is the bare runner's, and exactly the first run of each read and all other commands reach it |
| `MemoizingRunner.ForwardedExactly` | internal/activation/memoizing_runner.go:43-55 | each distinct read is run once and all else is passed on in order |
| `MemoizingRunner.Memoizing.Run` | internal/activation/memoizing_runner.go:43-55 | the answer is the underlying one, the bytes handed out are no array of the cache, and the underlying runner is asked only if it must be |
| `MemoizingRunner.JoinIsInjective` | internal/activation/memoizing_runner.go:48 | joined keys tell non-empty NUL-free argument lists apart |
| `MemoizingRunner.KeyTells` | internal/activation/memoizing_runner.go:43-48 | two memoized commands share a key only if they are the same |
| `MemoizingRunner.EmptyListsCollide` | internal/activation/memoizing_runner.go:57-64 | an empty list and one empty argument would collide, and no command without arguments is memoized |
| `MemoizingRunner.ApiReadExactly` | internal/activation/memoizing_runner.go:85-101 | an API call is a read exactly if nothing in it decides, or the first flag that decides names the method GET |
| `MemoizingRunner.MemoizingGitHubApiRead` | internal/activation/memoizing_runner.go:85-101 | the loop with its early returns computes that |
| `MemoizingRunner.ReadWithoutBodyExactly` | internal/activation/memoizing_runner.go:85-101 | a call taken for a read carries no body flag if and only if none is written together with its value and none follows the flag that names the method |
| `MemoizingRunner.BodiesAreOverlooked` | internal/activation/memoizing_runner.go:85-101 | both kinds occur: an attached field flag, and a field after the method GET |

## Left out

- Network, `gh`, `git` and provider processes, downloads, gzip and tar decoding, and the encoding of structs as JSON: ports or codecs with their documented behaviour.
- SHA-256: the digest stands for the bytes hashed, so distinct bytes have distinct digests.
- Stops inside compensation before its receipt is written: that block is one step. Its receipt write can still be refused by validation, which is modelled.
- Providers.Host.ReadReceipt: migration of older receipt schemas and the identity checks that do not concern providers are not modelled; the parts of a receipt that no provider step reads are one opaque field.
- Activation.PrepareDeployment: what the checks of repositories, template and Project say is one yes-or-no input.
- Activation.ProvisionRemote: the repository and Project steps are writes that record no more than that a Project receipt is present; what the Project step does is `ProjectProvisioning`.
- Marketplace sources are compared as equal strings; the canonicalization of paths is left out.
- EvidenceEvaluator.EvaluateEvidence: diagnostic texts are an enumeration of messages, requirement codes and next steps are left to the requirement they belong to, and the second look for a preflight diagnostic is omitted because no blocker has such a code.
- EvidenceEvaluator.SortObservations: the sort key is taken as injective; in the code it is a JSON encoding whose error is ignored, so an observation dated after the year 9999 has an empty key.
- Decoding of evaluation inputs and the digests of bindings: the evaluator starts from decoded input.
- The replacing (not create-only) form of atomic metadata writes: its last inspection and its rename are separate steps, and no atomicity is claimed for it.
- Directory handles, symbolic-link system calls and permissions: trees hold files, directories and other things, and a name that is not what it should be is unsafe.
- Install.RemoveOwnedFile: looking at a file once more and removing it are one step.
- Install.RemoveDirectory: looking at a directory and removing it are one step, as is the removal of the root.
- Install.GetStatus: the retained and owned lists are sets and sequences without their sorting, and unreadable directory entries are not told apart.
- Apply.ApplyBundle: creating the parent, the staging directory and the final rename do not fail; a runtime that cannot be selected or downloaded is no bundle.
- JsonScanner.MalformedJson: of texts that are not JSON only examples are shown; the strict parser is the grammar of RFC 8259 with its values, the size limit and the decoding of bytes are left out, and the depth of recursion is not bounded.
- The duplicate-key check on Go's JSON token stream: the same set-per-object algorithm on tokens that the decoder has already separated.
- CommandLine.QuotingRoundTrip: of PowerShell only bare words and single-quoted literals are modelled, not its splitting of bare words that look like parameters; of the POSIX shell only the constructs of word splitting and quoting.
- Checks of single values (names, paths, formats, profiles) before and after option parsing.
- Seed.ValidateRendered: path normalization and the scan for carriage returns, placeholders and zero bytes are left out, and so is the kind and version of the template.
- Seed.ValidateSeed: owner, name, visibility, description, version and digest-format checks of a repository target are left out.
- Supersedes.BuildSupersedesChain: fetching the revisions from storage.
- Confirmation.OneShot: plans of the second client, whose launch path saves without comparing the phase, the store without a conditional update, and failures of the store itself.
- Reasons and timestamps of facts beyond what the transitions write, client versions and known differences.
- ProjectProvisioning.Provision: name, control-character and length checks of the target, the JSON of responses, and Unicode case folding (ASCII is folded). Branches for a readable answer that names another Project cannot be taken under the standing assumptions and are left out.
- MemoizingRunner.Memoizing.Run: context cancellation and path lookup; arguments are NUL-free, as an operating system requires of them.
- The collectors of evidence, the status and diagnose reports, smoke contracts, the terminal interface, translations, colours, rendering and self-update.
- The evidence evaluator and the deployment apply of the TypeScript package: their validation and revision rules differ, and no agreement is claimed.
