# Verified models of Sunrise's harder parts

Sunrise is a local-first task and calendar app: a Rust core that owns the vault, and
an Apple client that drives it. This project models the parts of the two whose
behaviour is hardest to see from any one function, and proves what they promise.

- **The account session** (`AccountSession`, `AccountModel`, `AccountRuns`, `AccountSafety`,
  `RenewalLoop`). `AccountModel` is the object the app shares, each `async` method cut at its
  awaits; `AccountRuns` interleaves any number of logins and renewals in flight with sign-outs,
  reads and dismissals, under any answers from the Keychain and the issuer.
- **The Keychain migration** (`Keychain`, `Migration`, `KeychainStore`, `MigrationSafety`,
  `MigrationAnswers`). Two stores, or one under two names; every call may be refused; a run may
  be killed before any step, and another process may delete the destination.
- **The change feed** (`ChangeFeed`, `ChangeObjects`, `ChangeRuns`). From a write, through a
  channel that drops and reports it, the fan-out, the window and the prime, to what a screen
  shows. `ChangeFeed.View.Followed` is the contract `CoreBridge.changes` sets its consumers,
  patching the ids named on a complete batch; the screens themselves always re-read everything,
  which is one way of keeping it.
- **Order** (`SortOrder`, `SortGrowth`, `ManualOrder`, `DropPlan`, `TaskVault`, `DropLands`, `OrderImport`,
  `StreamOrder`). Dense fractional keys, drops in partly placed lists, the one-time import of a
  device's own order, and sidebar drags.
- **The day grid** (`BlockLayout`, `BlockDrag`) and **notes** (`NoteText`, `NoteLists`,
  `NoteEditor`, `NoteEditing`), any text with any marks and links, typing and marks included.
- **Two-device pairing** (`Pairing`, `PairingModel`, `PairingRuns`, `PairingSafety`,
  `PairingStories`). Both screens, each call cut at its awaits, both users and a courier that may paste anything, over any number
  of attempts. Cryptography is symbolic: what can be said under a key is said by its owner, and the
  six digits stand for the whole transcript.
- **The capture line** (`Capture`), **background sync** (`BackgroundSync`), **keyboard selection**
  (`ListSelection`), **reminders** (`Reminders`, `ReminderContent`, `ReminderPasses`), **the vault session and restore**
  (`VaultSession`), and **recurrence rules** (`RRule`, `Candidates`, `Expansion`, on `Text`).

Objects that update fields in place are classes whose methods are proved equal to functions on
their fields; the properties are then proved of those functions over all inputs and all runs.

## Where the code and its own description part

Each of these keeps the code as it is. The lemma named gives the exact condition.

- A renewal refused by the issuer is said to spare a login that is replacing it. It spares one
  in the browser, not one that has finished: `AccountSafety.ARefusedRenewalIsHarmlessIff`, with a
  run in `AccountSafety.ARefusedRenewalCanEndALaterLogin`.
- A refused refresh token is offered again if a login was in the browser when the refusal
  arrived: `AccountSafety.ARefusedTokenIsKeptIff`, with a run in
  `AccountSafety.ARefusedTokenIsOfferedAgain`.
- A login never starts beside a token nobody has read, but can finish beside one:
  `AccountSafety.ALoginSavesBesideAnUnreadCopyIff`, with a run in
  `AccountSafety.ALoginCanSaveBesideAnUnreadCopy`.
- The migration deletes the source once the destination has verified. A destination deleted by
  someone else in between takes the only copy with it: `MigrationSafety.LostExactlyIf`, with a run in
  `MigrationSafety.TheSecretCanBeLost`.
- Saving a note just opened is meant to write nothing. An empty note's body is cleared:
  `NoteEditor.OpeningWritesNothingIff`.
- An edited note is meant to be saved as it stands. A marked link loses its marks, a link marked in
  part becomes two and locks the note when it is opened again, and a note of nothing but blank
  blocks is cleared, headings and all: `NoteEditing.SavingBringsBackIff` and
  `NoteEditing.ASavedNoteOpensAgainIff`, with runs in `AMarkedLinkLosesItsMark`,
  `AHalfMarkedLinkLocksItsNote` and `ABlankHeadingIsCleared`.
- `sync()` is documented to answer by the deadline at the latest. A caller that joins after the
  watchdog has fired has none:
  `BackgroundSync.ACallIsAnsweredByTheDeadlineIff`.
- Snapping is documented as to the nearest boundary; before the day's start it rounds toward it:
  `BlockDrag.SnapIsNearestIff`. A resize is documented never to leave less than one step; near
  midnight it can: `BlockDrag.ResizeLeavesAStepIff`.
- `to_rfc5545` warns of unknown values holding `;`, `,` or `=`. Only `;` anywhere, and `,` in a
  day of BYDAY, break the round trip; so do an interval of nought and a field this build does not
  know, which the code admits its text cannot carry: `RRule.ReadBackIff`.
- A yearly rule is to expand as section 3.3.10 of RFC 5545 says. One that gives days and no months
  is offered only those of the anchor's month: `Candidates.OffersWhatIsAskedIff`, with rules in
  `Candidates.EveryMondayOfTheYearIsNotOffered` and `Candidates.EveryMonthsDayIsNotOffered`.
- `spread` is documented to lengthen `n` keys by about the logarithm of `n` to base 26. The base is
  16: `SortGrowth.ARunGrowsByItsSixteens`, and sixteen keys can take two digits:
  `SortGrowth.SixteenKeysNeedTwoDigits`.
- The cursor is documented always to exist while a list has rows. It exists exactly when it did
  before: `ListSelection.ReconcileKeepsACursorIff`. It is documented to follow the last row a
  selection gained, so that the next extend grows from there; it goes to the first row selected:
  `ListSelection.CursorFollowsTheLastGainedIff`, with a range in
  `ListSelection.AnAdoptedRangeCanShrink`.
- A root is meant to be stored only for a vault written under it, and an unreadable vault never
  to be lost. `createVault` and `adoptPairing` store first and open afterwards, creating trusts the
  launch's look at the directory, and a restore clears whatever it finds when it is refused:
  `VaultSession.TheStoredRootFitsIff` over runs and `VaultSession.StoringFitsIff` step by step, with
  runs in `CreatingCanStoreForNothing`, `AdoptingCanEndInAnEmptyVault` and
  `CreatingAfterAnUnkeptRestoreShutsItOut`; and `VaultSession.EveryVaultIsKeptIff`.
- Cancelling a pairing is meant to leave nothing half-open. Nothing is adopted in the attempt any
  more, but a channel its digits have opened stays open: a call suspended in it is still sealed for
  and its text shown, `PairingSafety.AStoppedAttemptSealsIff` and
  `PairingSafety.ACancelledDeviceHandsOverIff`, with a run in
  `PairingStories.TheAccountCrossesAfterACancel`.
- Everything typed on a capture line is meant to be in the title or the draft. A facet replaced by a
  later one of its kind is in neither: `Capture.EveryWordIsKeptSpentOrReplaced`, with a line in
  `Capture.AReplacedWordLeavesNoTrace`.
- The OS's schedule is meant to match the core's answer. An alert already held is left as it is,
  whatever it was to say: `ReminderContent.APassMatchesIff`, with a renamed task in
  `ReminderContent.ARenamedTaskKeepsItsAlert`.
- An alert already held is meant never to be scheduled again. Passes may overlap, and then it can
  be, or an earlier pass can come last: `ReminderPasses.ScheduledAgainIff`,
  `ReminderPasses.AnEarlierPassCanComeLast`.
- A sign-out while the renewal loop sleeps is never told to the sync driver:
  `RenewalLoop.TheDriverHoldsTheBearer`, with a case in `RenewalLoop.ASignOutAsleepIsNotTold`.
- Two sort keys in ascending order that spell one number admit no key between them:
  `SortOrder.SortedBoundsAdmitNothingIff`.

## Model

| member | source | states |
|---|---|---|
| `AccountSafety.LateResultWritesNothing` | apps/apple/Sunrise/Identity/AccountModel.swift:116-137 | A login or renewal in flight, any run of other steps with a sign-out in it (refused or not), then its result: state, bearer, residue, store, browser tabs, all unchanged, for any result |
| `AccountSafety.LoginIsAdoptedIff` | apps/apple/Sunrise/Identity/AccountModel.swift:312-322 | Exactly when: a finished login is saved and presented if and only if the sign-outs since it began are a whole number of turns of the wrapping 64-bit generation |
| `AccountSafety.SignedOutStaysOut` | apps/apple/Sunrise/Identity/AccountModel.swift:417-434 | After a sign-out no bearer, token, spinner or browser tab appears, whatever was in flight, until someone signs in again (or, after a refused removal, re-reads the store) |
| `AccountSafety.RefusalStandsWhileTheCredentialDoes` | apps/apple/Sunrise/Identity/AccountModelSignOutDisclosure.swift:69-75 | From launch, over every run: while a refusal stands the stored credential is the one the last refused removal left; a presented bearer or expiry is the stored one's |
| `AccountSafety.RefusalEndsOnlyByReplacing` | apps/apple/Sunrise/Identity/AccountModel.swift:313-322 | A refusal ends only when the store is emptied or a minted token is saved over it and presented |
| `AccountSafety.OneWayOutIsOffered` | apps/apple/Sunrise/Identity/AccountModelSignOutDisclosure.swift:88-152 | While a refusal stands: settled screens offer exactly one of message, retry and bare Sign out, signed-in ones none of them, a browser in front the retry unless it was dismissed |
| `AccountSafety.ARefusedTokenIsNotOfferedAgain` | apps/apple/Sunrise/Identity/AccountModel.swift:376-387 | Over every run in which removals succeed, the issuer mints new tokens and no login is in the browser when a refusal lands: no renewal ever offers a refresh token the issuer has refused |
| `AccountSafety.ARefusedTokenIsKeptIff` | apps/apple/Sunrise/Identity/AccountModel.swift:382-387 | The exceptions exactly: a refused token is still held afterwards if and only if a login was in the browser, or the Keychain declined to remove it and left it |
| `AccountSafety.ARefusedTokenIsOfferedAgain` | apps/apple/Sunrise/Identity/AccountModel.swift:382-387 | A run from a launch in which the next renewal offers the issuer the token it has refused |
| `AccountSafety.ARefusedRenewalIsHarmlessIff` | apps/apple/Sunrise/Identity/AccountModel.swift:372-387 | A refused renewal changes nothing if and only if a session ended since it began or a login is in the browser; a login that has already finished is not spared |
| `AccountSafety.ARefusedRenewalCanEndALaterLogin` | apps/apple/Sunrise/Identity/AccountModel.swift:352-387 | One run in which a renewal refused late signs out, and erases from the store, the session a later login made |
| `AccountSafety.ALoginSavesBesideAnUnreadCopyIff` | apps/apple/Sunrise/Identity/AccountModel.swift:276-322 | A login starts only beside a store that has answered; its token is then saved beside a copy nobody read exactly when it is adopted and the last step since that really read the store was refused in a way that may leave one |
| `AccountSafety.ALoginCanSaveBesideAnUnreadCopy` | apps/apple/Sunrise/Identity/AccountModel.swift:276-322 | A run from a launch in which it happens: a first look is refused while the login is starting |
| `AccountRuns.EveryRunIsSound` | apps/apple/Sunrise/Identity/AccountModel.swift:91-137 | Every run keeps: the generation counts sign-outs modulo 2^64, every frame holds the count it captured, screen, bearer and store show one session, and a standing refusal is true |
| `AccountModel.AccountModel.Restore` | apps/apple/Sunrise/Identity/AccountModel.swift:199-209 | The new fields after a read of the store, for an answer and for each shape of refusal |
| `AccountModel.AccountModel.RestoreIfUnread` | apps/apple/Sunrise/Identity/AccountModelFirstLook.swift:26-29 | Reads only a model that is signed out, holds nothing and has no sign-out on record |
| `AccountModel.AccountModel.SignIn` | apps/apple/Sunrise/Identity/AccountModel.swift:260-285 | Up to the first await: the second look, the configuration check, the captured generation |
| `AccountModel.AccountModel.SignInBegun` | apps/apple/Sunrise/Identity/AccountModel.swift:286-300 | Between the awaits: discarded, failed, or the browser opened and the spinner shown |
| `AccountModel.AccountModel.SignInCompleted` | apps/apple/Sunrise/Identity/AccountModel.swift:301-335 | After the second await: discarded, failed, or saved and presented |
| `AccountModel.AccountModel.RefreshIfNeeded` | apps/apple/Sunrise/Identity/AccountModel.swift:344-353 | Up to the await: nothing due, nothing to renew with, an expiry that signs out, or a renewal parked with its token |
| `AccountModel.AccountModel.RefreshAnswered` | apps/apple/Sunrise/Identity/AccountModel.swift:354-398 | After the await: discarded, saved, refused, or unreachable before and after expiry |
| `AccountModel.AccountModel.SignOut` | apps/apple/Sunrise/Identity/AccountModel.swift:417-434 | The store cleared or its refusal recorded, the local session dropped, the generation advanced with wrap-around |
| `AccountModel.AccountModel.DismissSignOutIncomplete` | apps/apple/Sunrise/Identity/AccountModel.swift:440-442 | Only an unread message becomes acknowledged |
| `AccountModel.AccountModel.DismissSignOutRetry` | apps/apple/Sunrise/Identity/AccountModel.swift:458-463 | Unread or acknowledged becomes retired; nothing else moves |
| `AccountModel.AccountModel.RenewWhileRunning` | apps/apple/Sunrise/Identity/AccountModelRenewalTick.swift:34-53 | The loop, with what interrupts each look and each sleep: the account afterwards and what it told the sync driver |
| `RenewalLoop.ToldAreTheChanges` | apps/apple/Sunrise/Identity/AccountModelRenewalTick.swift:42-46 | The loop tells exactly the bearers of the turns whose look changed it, in order, each once, given by their indices, and of no turn it was cancelled in or before |
| `RenewalLoop.TheDriverHoldsTheBearer` | apps/apple/Sunrise/Identity/AccountModelRenewalTick.swift:34-53 | Whatever runs during looks and sleeps: the driver ends with the model's bearer, unless the loop was cancelled in a look that changed it, or it moved in a sleep and no look has told of a change since |
| `RenewalLoop.ADriverMissesOnlyTheLast` | apps/apple/Sunrise/Identity/AccountModelRenewalTick.swift:34-53 | When no sleep moves the bearer, it misses one if and only if the loop was cancelled in a look that changed it |
| `RenewalLoop.ASignOutAsleepIsNotTold` | apps/apple/Sunrise/Identity/AccountModelRenewalTick.swift:42-46 | A sign-out in a sleep is not told: the next look finds the bearer already gone |
| `RenewalLoop.NothingIsToldTwice` | apps/apple/Sunrise/Identity/AccountModelRenewalTick.swift:46 | A telling that repeats the one before it has a sleep between the two in which the bearer moved |
| `MigrationSafety.TheSecretIsNeverLost` | apps/apple/Sunrise/Identity/KeychainMigration.swift:136-157 | A secret in either place is in one of them after any number of launches, each killed before any step or refused any call |
| `MigrationSafety.NothingElseChanges` | apps/apple/Sunrise/Identity/KeychainMigration.swift:310-343 | Over those launches the destination only ever gains the source's bytes, the source only loses bytes the destination then holds, and every other item is untouched |
| `MigrationSafety.OneQuietRunFinishesTheMove` | apps/apple/Sunrise/Identity/KeychainMigration.swift:310-343 | After any interrupted launches, one run left alone answers with the secret, leaves it in the destination and empties the source |
| `MigrationSafety.UnverifiedMeansTwoSecrets` | apps/apple/Sunrise/Identity/KeychainMigration.swift:338 | `migrationUnverified`, under any refusals and kills, means both places hold bytes, they differ, and neither was touched |
| `MigrationSafety.AQuietRunIsUnverifiedIff` | apps/apple/Sunrise/Identity/KeychainMigration.swift:310-343 | With nothing refused it is raised if and only if both hold bytes that differ |
| `MigrationSafety.LostExactlyIf` | apps/apple/Sunrise/Identity/KeychainMigration.swift:326-342 | Another process may delete the destination before any step, any number of times, under any refusals and kills: the secret is lost exactly when the hook, the script and what was there make the run verify the secret, lose the destination next, and have the source deleted |
| `MigrationSafety.TheSecretCanBeLost` | apps/apple/Sunrise/Identity/KeychainMigration.swift:338-342 | One run that loses it: nothing refused, one deletion between the verification and the source's |
| `MigrationSafety.AVanishedDestinationIsRescued` | apps/apple/Sunrise/Identity/KeychainMigration.swift:326-337 | However often the destination vanishes under a run, the run still answers with the secret |
| `MigrationAnswers.NothingIsSaidOnlyOfNothing` | apps/apple/Sunrise/Identity/KeychainMigration.swift:288-299 | A load says `nil` only when every place this build can reach is empty, whatever was refused or killed |
| `MigrationAnswers.WhatIsLoadedWasStored` | apps/apple/Sunrise/Identity/KeychainMigration.swift:288-299 | Whatever a load answers with was stored in the source, the destination or the destination's other keychain when it began |
| `MigrationAnswers.SavedIsLoaded` | apps/apple/Sunrise/Identity/Keychain.swift:365-376 | A cross-domain save that succeeds is what the next load answers, even over two secrets that disagreed |
| `MigrationAnswers.HalfASaveIsADisagreementIff` | apps/apple/Sunrise/Identity/Keychain.swift:365-376 | A save whose other half was refused loads as itself, unless and only unless it is the data-protection copy and the login copy left behind differs |
| `MigrationAnswers.ClearedIsGone` | apps/apple/Sunrise/Identity/Keychain.swift:497-519 | A cross-domain delete that succeeds leaves nothing for any later load |
| `MigrationAnswers.EachRefusalKeepsItsOwnCopy` | apps/apple/Sunrise/Identity/Keychain.swift:497-519 | Each copy survives a delete exactly when its own store declined; it throws exactly when this store declined, or the other one could be reached and did, and which of the two |
| `MigrationAnswers.ReadingAcrossIsHonest` | apps/apple/Sunrise/Identity/Keychain.swift:236-248 | A cross-domain read answers bytes one of the two stores holds, and `nil` only of two empty ones |
| `MigrationAnswers.LoadingRaisesTheClass` | apps/apple/Sunrise/Identity/Keychain.swift:391-423 | A load left alone leaves the destination's item under the class this build declares |
| `KeychainStore.Security.Read` | apps/apple/Sunrise/Identity/Keychain.swift:73-88 | One read: answered, not found, malformed, refused, or a store out of reach |
| `KeychainStore.Security.Write` | apps/apple/Sunrise/Identity/Keychain.swift:251-271 | An update, and an insert where there is nothing to update, with the class and the refusal of each |
| `KeychainStore.Security.Delete` | apps/apple/Sunrise/Identity/Keychain.swift:426-431 | A deletion, with an absent item counted as success |
| `KeychainStore.Security.UpgradeAccessibilityIfNeeded` | apps/apple/Sunrise/Identity/Keychain.swift:391-423 | The class raised only where the item has another one, and the two refusals told apart |
| `KeychainStore.Security.ReadAcrossDomains` | apps/apple/Sunrise/Identity/Keychain.swift:236-248 | This store, then the other, and whose refusal it was |
| `KeychainStore.Security.WriteAcrossDomains` | apps/apple/Sunrise/Identity/Keychain.swift:365-376 | The write, the other store's copy deleted, and a refusal of that half re-labelled |
| `KeychainStore.Security.DeleteAcrossDomains` | apps/apple/Sunrise/Identity/Keychain.swift:497-519 | Both deletions attempted; this store's refusal wins |
| `KeychainStore.KeychainMigration.Run` | apps/apple/Sunrise/Identity/KeychainMigration.swift:136-157 | The whole run in place, with its one-item case, its steps and its fallback |
| `KeychainStore.KeychainMigration.LoadMigratingIfNeeded` | apps/apple/Sunrise/Identity/KeychainMigration.swift:288-299 | Migrate, raise, read across, and which failures give way to rescued bytes |
| `ChangeRuns.ADrainedScreenShowsTheVault` | apps/apple/Sunrise/Core/ChangeFeed.swift:302-336 | Any writes, losses reported as lags, window cuts, and screens coming at any point showing anything: a screen whose feed is drained shows the vault exactly |
| `ChangeRuns.EveryScreenCatchesUp` | apps/apple/Sunrise/Core/ChangeFeed.swift:266-300 | From every reachable state of an open vault, so many deliveries later any given screen shows the vault, with no further write needed |
| `ChangeRuns.ADeliveryIsDue` | apps/apple/Sunrise/Core/ChangeFeed.swift:246-264 | A screen that is not drained always has a delivery due, and each one leaves less to do: no batch is stranded in a window |
| `ChangeRuns.EveryRunIsSound` | apps/apple/Sunrise/Core/ChangeFeed.swift:56-97 | Every run keeps: whatever a screen shows wrongly it has yet to be told about, anything pending has one flush scheduled, and nothing says closed before the vault is |
| `ChangeRuns.AClosedVaultIsNeverRead` | apps/apple/Sunrise/Core/CoreBridge.swift:428-432 | A screen opened onto a closed vault never reads it, whatever steps follow |
| `ChangeRuns.OpeningOntoAClosedVault` | apps/apple/Sunrise/Core/ChangeFeed.swift:184-211 | Subscribing after the close gives the closing and nothing else, no prime |
| `ChangeObjects.ChangeAccumulator.Record` | apps/apple/Sunrise/Core/ChangeFeed.swift:64-81 | The accumulator after each kind of notification |
| `ChangeObjects.ChangeAccumulator.Drain` | apps/apple/Sunrise/Core/ChangeFeed.swift:84-95 | The batch taken, everything reset but the closing |
| `ChangeObjects.WindowCoalescer.Record` | apps/apple/Sunrise/Core/ChangeFeed.swift:252-257 | `true` exactly for the notification that opened the window |
| `ChangeObjects.WindowCoalescer.CloseWindow` | apps/apple/Sunrise/Core/ChangeFeed.swift:260-263 | The window closed and all that landed in it taken |
| `ChangeObjects.ChangeBroadcast.SubscribeIfOpen` | apps/apple/Sunrise/Core/ChangeFeed.swift:184-211 | A live stream, or a stream holding only the closing, and which of the two, in one step |
| `ChangeObjects.ChangeBroadcast.Publish` | apps/apple/Sunrise/Core/ChangeFeed.swift:218-223 | Every live consumer gets the notification, no ended one does, and a closing ends them all |
| `ChangeObjects.ChangeBroadcast.CloseAll` | apps/apple/Sunrise/Core/ChangeFeed.swift:232-241 | Every live consumer ended, none left, closed for good |
| `SortOrder.BetweenIsDense` | crates/sunrise-domain/src/sort_order.rs:166-217 | A key between two bounds exists exactly when they admit one; it is valid and strictly inside, as a string and as a number; every refusal is named for what is wrong |
| `SortOrder.ValidBoundsAdmitIffSorted` | crates/sunrise-domain/src/sort_order.rs:150-217 | On valid or absent bounds the admitting condition is just that they ascend |
| `SortOrder.StringOrderIsNumericOrder` | crates/sunrise-domain/src/sort_order.rs:1-58 | On the keys this build writes, string order is the order of the fractions they spell |
| `SortOrder.ValidSpellingIsUnique` | crates/sunrise-domain/src/sort_order.rs:87-91 | No two valid keys spell one number |
| `SortOrder.SpreadFillsTheGap` | crates/sunrise-domain/src/sort_order.rs:281-311 | `n` keys for one gap: in order, all strictly inside, exactly when the gap admits one, and no longer than the longer bound plus the bit length of `n` |
| `SortGrowth.ARunGrowsByAQuarter` | crates/sunrise-domain/src/sort_order.rs:267-311 | And by no more than a digit for every four bits of `n`, begun ones counted |
| `SortGrowth.ARunGrowsByItsSixteens` | crates/sunrise-domain/src/sort_order.rs:267-311 | So fewer than sixteen to the `d` keys lengthen by at most `d` digits |
| `SortGrowth.SixteenKeysNeedTwoDigits` | crates/sunrise-domain/src/sort_order.rs:267-311 | Sixteen keys between `B` and `C` lengthen by two, where the logarithm to base 26 is less than one |
| `SortOrder.SortedBoundsAdmitNothingIff` | crates/sunrise-domain/src/sort_order.rs:160-217 | Two strings of digits in ascending order admit no key between them exactly when the second is the first followed by zeros |
| `SortOrder.SortedSpellingsOfOneNumberAdmitNothing` | crates/sunrise-domain/src/sort_order.rs:558-575 | `AB` and `ABA` are in order and admit nothing |
| `SortOrder.ComputeBetween` | crates/sunrise-domain/src/sort_order.rs:166-265 | The digit walk itself, loop for loop |
| `DropLands.DropLandsWhereItWasAimed` | crates/sunrise-client-core/src/task_order.rs:101-154 | Plan a drop, make the move the vault accepts, show the list again: it is exactly the arrangement the drop asked for, whatever mix of placed and unplaced rows the list has |
| `DropLands.NoPlanIffNothingChanges` | crates/sunrise-client-core/src/task_order.rs:101-154 | A drop plans nothing exactly when it names no row of the list, no landing in it, or an arrangement it already has |
| `DropLands.PlanIsAcceptedIffAKeyFits` | crates/sunrise-core/src/engine/task_order.rs:35-93 | The vault takes a planned move exactly when a key fits between the rows it lands between |
| `DropLands.ValidKeysAreNeverRefused` | crates/sunrise-core/src/engine/task_order.rs:35-93 | With every key one this build writes, no planned drop is ever refused |
| `DropLands.OnlyTheseRowsAreKeyed` | crates/sunrise-client-core/src/task_order.rs:124-153 | A move writes the dragged rows, the unplaced rows above the drop, and placed rows below that are not above its floor: no others |
| `DropPlan.ComputePlan` | crates/sunrise-client-core/src/task_order.rs:101-154 | The planner's own loops give the specified cut |
| `TaskVault.Vault.MoveTasks` | crates/sunrise-core/src/engine/task_order.rs:35-93 | All or nothing: a refusal writes no key, a success writes exactly the moved tasks' keys |
| `ManualOrder.ShownIsInManualOrder` | crates/sunrise-domain/src/task_order.rs:28-47 | The list shown is in manual order: placed rows by key, then the unplaced as they were |
| `ManualOrder.ManualOrderIsUnique` | crates/sunrise-domain/src/task_order.rs:28-47 | That arrangement is the only one in order that keeps the unplaced where they were |
| `OrderImport.ImportIsDeclinedIff` | crates/sunrise-client-core/src/task_order.rs:175-193 | An import moves nothing exactly when the list has a row somebody else placed, or the stored order names none of its unplaced rows; it never re-keys a placed row |
| `OrderImport.ImportShowsTheStoredOrder` | apps/apple/Sunrise/Tasks/ListOrder.swift:115-132 | After an import the list shows the rows already placed, then the stored order, then the rest as it was |
| `OrderImport.ImportsAgree` | crates/sunrise-client-core/src/task_order.rs:175-193 | The core's import is the first case of the device's |
| `OrderImport.ListOrderImport.Command` | apps/apple/Sunrise/Tasks/ListOrder.swift:115-132 | The command for a list, or none and the stored order forgotten |
| `OrderImport.ListOrderImport.RecordPlaced` | apps/apple/Sunrise/Tasks/ListOrder.swift:136-139 | What was placed is remembered |
| `OrderImport.ListOrderImport.Forget` | apps/apple/Sunrise/Tasks/ListOrder.swift:144-151 | A stored order dropped, and the record of what was placed with the last of them |
| `StreamOrder.DragLandsAsDragged` | apps/apple/Sunrise/Browse/StreamOrder.swift:46-75 | Write only the keys a drag returns and sort again: the sidebar is exactly the list as dragged, and only the dragged rows were written |
| `StreamOrder.NothingIsWrittenIff` | apps/apple/Sunrise/Browse/StreamOrder.swift:46-75 | Whatever keys the rows hold: a drag writes nothing exactly when it changes nothing or the rows it was dropped between admit no key; otherwise it writes every dragged row |
| `StreamOrder.NothingIsWrittenIffNothingMoves` | apps/apple/Sunrise/Browse/StreamOrder.swift:46-75 | With distinct valid keys a drag is never abandoned: it writes nothing exactly when it changes nothing |
| `StreamOrder.ADropBetweenEqualKeysIsAbandoned` | apps/apple/Sunrise/Browse/StreamOrder.swift:46-75 | A drop between two rows with one key, as two devices can leave them, is abandoned |
| `StreamOrder.ComputeMoves` | apps/apple/Sunrise/Browse/StreamOrder.swift:46-75 | The walk itself, loop for loop, all or nothing |
| `BlockLayout.Place` | apps/apple/Sunrise/Calendar/BlockLayout.swift:56-107 | Places exactly the rows on the window, cut to it, in start order; lanes are below the lane count, disjoint in time and across the day; blocks with no gap between them share one count; that many of them are under way at one instant |
| `BlockLayout.Pack` | apps/apple/Sunrise/Calendar/BlockLayout.swift:77-93 | Greedy packing: every lane disjoint, each block in the first free lane, and as many columns as some instant needs |
| `BlockLayout.Clusters` | apps/apple/Sunrise/Calendar/BlockLayout.swift:115-131 | The runs between gaps, in order, nothing left out |
| `BlockLayout.Resolve` | apps/apple/Sunrise/Calendar/BlockLayout.swift:62-75 | The rows on the half-open window, cut to it, sorted by start and id, each once |
| `BlockLayout.OverlappingBlocksDoNotShareALane` | apps/apple/Sunrise/Calendar/BlockLayout.swift:77-93 | Two blocks that overlap are never in one lane |
| `BlockLayout.ConnectedIffTogether` | apps/apple/Sunrise/Calendar/BlockLayout.swift:109-131 | Two blocks share a cluster exactly when a chain of overlaps connects them |
| `BlockLayout.WidthIsTheBusiestInstant` | apps/apple/Sunrise/Calendar/BlockLayout.swift:77-105 | The lane count is the greatest number of blocks of the cluster under way at once: attained, and never exceeded |
| `BlockLayout.ClampedLasts` | apps/apple/Sunrise/Calendar/BlockLayout.swift:62-70 | Cutting a block to the window never empties it |
| `BlockDrag.SnapIsNearestIff` | apps/apple/Sunrise/Calendar/BlockLayout.swift:156-163 | Snapping gives the nearest boundary exactly when the instant is not before the day's start by more than half a step past a boundary |
| `BlockDrag.MoveKeepsItsLength` | apps/apple/Sunrise/Calendar/BlockLayout.swift:206-213 | A moved block keeps its length, one step at least, starts in the day, and ends in it if and only if it fits |
| `BlockDrag.ResizeLeavesAStepIff` | apps/apple/Sunrise/Calendar/BlockLayout.swift:214-217 | A resize leaves at least one step exactly when a step of the day is left after the block's start |
| `NoteText.SavedTextIsUnchangedIff` | apps/apple/Sunrise/Notes/NoteInlineText.swift:30-82 | Text with any marks and links, written as inlines and read back, is itself exactly when no link in it is marked |
| `NoteText.InlineFromIsCanonicalIff` | apps/apple/Sunrise/Notes/NoteInlineText.swift:30-82 | What a text is written as is something the editor could write again exactly when no link in it changes marks half way |
| `NoteText.PressingTwiceRestoresIff` | apps/apple/Sunrise/Notes/NoteInlineText.swift:126-157 | A second press of a mark's button takes back the first exactly when all of the selection had the mark or none of it |
| `NoteText.InlineSurvivesIff` | apps/apple/Sunrise/Notes/NoteInlineText.swift:30-82 | Inlines come back as they were exactly when the editor could have written them: text and links only, none empty, marks in order, no two neighbours alike |
| `NoteLists.DrawnAgainIsNormalized` | apps/apple/Sunrise/Notes/NoteEditorBlock.swift:208-287 | Any rows whatever: nested as a list and drawn again they are the same rows in order, each pulled up to where it has a parent, their links without marks |
| `NoteLists.RowsSurviveIff` | apps/apple/Sunrise/Notes/NoteEditorBlock.swift:254-287 | Rows survive nesting and flattening exactly when the first is at the top, none is more than one deeper than the one above, and no link in them is marked |
| `NoteLists.ListSurvivesIff` | apps/apple/Sunrise/Notes/NoteEditorBlock.swift:208-287 | A nested list survives flattening and nesting exactly when every item has at most one inner list, of the same kind and not empty, and canonical text |
| `NoteLists.FlattenNests` | apps/apple/Sunrise/Notes/NoteEditorBlock.swift:208-219 | Every list, the unsupported ones included, is drawn with valid depths |
| `NoteLists.BuiltIsSupportedIff` | apps/apple/Sunrise/Notes/NoteEditorBlock.swift:259-287 | What is built is a list the rows can say exactly when no link in the rows it took changes marks half way |
| `NoteLists.ComputeFlatten` | apps/apple/Sunrise/Notes/NoteEditorBlock.swift:208-219 | The flattening loops |
| `NoteLists.ComputeBuild` | apps/apple/Sunrise/Notes/NoteEditorBlock.swift:259-287 | The recursive build with its cursor, loop for loop |
| `NoteEditor.BlockSurvivesIff` | apps/apple/Sunrise/Notes/NoteEditorBlock.swift:168-251 | Drawing a block and saving it gives it back exactly when it is supported, kind by kind |
| `NoteEditor.SavedIsShown` | apps/apple/Sunrise/Notes/NoteEditorBlock.swift:168-251 | A block that fits is drawn from its saved form with the same kind, code, ticks and depths, its texts with no mark left on a link |
| `NoteEditor.BlockIsShownIff` | apps/apple/Sunrise/Notes/NoteEditorBlock.swift:168-251 | So it comes back from a save as it was exactly when no link in it is marked |
| `NoteEditor.SavedIsSupportedIff` | apps/apple/Sunrise/Notes/NoteEditorBlock.swift:168-251 | And its saved form can be edited again exactly when no link in it changes marks half way |
| `NoteEditor.OutdentUndoesIndent` | apps/apple/Sunrise/Notes/NoteEditorModel.swift:245-272 | An outdent takes back an indent, with the rows below it |
| `NoteEditor.EditingNormalizesAsSavingDoes` | apps/apple/Sunrise/Notes/NoteEditorModel.swift:265-272 | Pulling rows up after an edit gives the depths that saving the list and drawing it again would |
| `NoteEditor.AddedRowDisturbsNothing` | apps/apple/Sunrise/Notes/NoteEditorModel.swift:217-225 | The rows that were there are still there, in order, wherever a row is added |
| `NoteEditor.ThereAndBack` | apps/apple/Sunrise/Notes/NoteEditorModel.swift:154-179 | Text made a list and made text again is the same block |
| `NoteEditor.OpensForEditingIff` | apps/apple/Sunrise/Notes/NoteEditorModel.swift:73-92 | A note opens for editing exactly when its bytes and every block of it can be put back |
| `NoteEditor.OpeningWritesNothingIff` | apps/apple/Sunrise/Notes/NoteEditorModel.swift:106-140 | Saving a note just opened leaves its body alone, unless and only unless it opened for editing with no blocks: then its body is cleared |
| `NoteEditing.SavingBringsBackIff` | apps/apple/Sunrise/Notes/NoteEditorModel.swift:73-140 | Any note opened, any run of edits, typing and marks among them, then saved and opened again: it shows what it showed exactly when it was locked, or no link was marked and, where the save cleared it, all there was is one blank paragraph |
| `NoteEditing.ASavedNoteOpensAgainIff` | apps/apple/Sunrise/Notes/NoteEditorModel.swift:73-140 | And when the save wrote blocks, it opens for editing again exactly when no link changed marks half way |
| `NoteEditing.AMarkedLinkLosesItsMark` | apps/apple/Sunrise/Notes/NoteInlineText.swift:30-82 | A link made bold: nothing is written, and it is plain when the note is opened again |
| `NoteEditing.AHalfMarkedLinkLocksItsNote` | apps/apple/Sunrise/Notes/NoteInlineText.swift:30-82 | Half a link made bold: two links are written, and the note is locked when it is opened again |
| `NoteEditing.ABlankHeadingIsCleared` | apps/apple/Sunrise/Notes/NoteEditorModel.swift:133-140 | A blank paragraph made a heading: the body is cleared, and the heading is not there again |
| `NoteEditing.EveryEditFits` | apps/apple/Sunrise/Notes/NoteEditorModel.swift:144-272 | Any run of edits, typing and marks among them, keeps every block savable as it stands, ids apart, and an unlocked note with a block in it |
| `NoteEditing.ALockedNoteIsNeverWritten` | apps/apple/Sunrise/Notes/NoteEditorModel.swift:96-140 | A locked note is unchanged by any edits and never written |
| `NoteEditing.NestingLosesNoRow` | apps/apple/Sunrise/Notes/NoteEditorModel.swift:245-272 | Any indents and outdents leave the same rows with the same texts in the same order |
| `NoteEditing.MovingBackRestores` | apps/apple/Sunrise/Notes/NoteEditorModel.swift:207-212 | A block moved and moved back leaves the note as it was |
| `NoteEditing.NoteEditorModel.constructor` | apps/apple/Sunrise/Notes/NoteEditorModel.swift:66-92 | The note as loaded: its blocks, its lock, its first blank paragraph |
| `NoteEditing.NoteEditorModel.SetKind` | apps/apple/Sunrise/Notes/NoteEditorModel.swift:154-179 | The block in its new kind, rows joined, made or brought to the top, and nothing else moved |
| `NoteEditing.NoteEditorModel.InsertBlock` | apps/apple/Sunrise/Notes/NoteEditorModel.swift:183-191 | A block of the kind below the one named, focused |
| `NoteEditing.NoteEditorModel.RemoveBlock` | apps/apple/Sunrise/Notes/NoteEditorModel.swift:195-204 | The block gone, the last one replaced by a blank paragraph, the focus moved |
| `NoteEditing.NoteEditorModel.MoveBlock` | apps/apple/Sunrise/Notes/NoteEditorModel.swift:207-212 | Two blocks swapped, or nothing past an end |
| `NoteEditing.NoteEditorModel.AddRow` | apps/apple/Sunrise/Notes/NoteEditorModel.swift:217-225 | A blank row below the one named, as deep as it |
| `NoteEditing.NoteEditorModel.RemoveRow` | apps/apple/Sunrise/Notes/NoteEditorModel.swift:227-232 | The row gone and the depths normalised, never the only row |
| `NoteEditing.NoteEditorModel.ToggleChecked` | apps/apple/Sunrise/Notes/NoteEditorModel.swift:234-238 | One row's tick turned |
| `NoteEditing.NoteEditorModel.IndentRow` | apps/apple/Sunrise/Notes/NoteEditorModel.swift:245-250 | One row deeper, refused at the top and past the row above |
| `NoteEditing.NoteEditorModel.OutdentRow` | apps/apple/Sunrise/Notes/NoteEditorModel.swift:252-258 | One row up, the rows below pulled up with it |
| `NoteEditing.NoteEditorModel.NormalizeDepths` | apps/apple/Sunrise/Notes/NoteEditorModel.swift:265-272 | The ceiling loop in place |
| `NoteEditing.NoteEditorModel.ToggleMark` | apps/apple/Sunrise/Notes/NoteEditorModel.swift:291-312 | The mark put on or taken off the selection of the focused text, and nothing else |
| `NoteEditing.NoteEditorModel.Type` | apps/apple/Sunrise/Notes/NoteBodyEditor.swift:190 | The text of one block replaced |
| `NoteEditing.NoteEditorModel.TypeRow` | apps/apple/Sunrise/Notes/NoteBodyEditor.swift:284 | The text of one row replaced |
| `NoteEditing.NoteEditorModel.TypeCode` | apps/apple/Sunrise/Notes/NoteBodyEditor.swift:229-234 | The code of one block replaced |
| `BackgroundSync.NeverTwoRunsAndOneAnswerEach` | apps/apple/Sunrise/Sync/BackgroundSync.swift:74-91 | Over every run: at most one task alive; every caller is either waiting on that task or answered, never both |
| `BackgroundSync.EveryRunIsSound` | apps/apple/Sunrise/Sync/BackgroundSync.swift:142-183 | Every run keeps single flight, one answer each, and answers that are the joined run's own result or `failed` for a run cut short |
| `BackgroundSync.AnswersStand` | apps/apple/Sunrise/Sync/BackgroundSync.swift:179-183 | An answer once given never changes |
| `BackgroundSync.AStuckRunIsNotOverlapped` | apps/apple/Sunrise/Sync/BackgroundSync.swift:142-177 | No new run starts until a stuck one has ended, whatever else happens |
| `BackgroundSync.ACallIsAnsweredByTheDeadlineIff` | apps/apple/Sunrise/Sync/BackgroundSync.swift:140-169 | With its run neither ended nor cut short by the OS, a call is answered in exactly the runs in which the deadline passes, and there is such a run exactly when no run was in flight or its watchdog had not fired when the call came |
| `BackgroundSync.TheDeadlineLeavesTheRunInFlight` | apps/apple/Sunrise/Sync/BackgroundSync.swift:151-169 | And that state is reached in two steps |
| `BackgroundSync.Coordinator.Call` | apps/apple/Sunrise/Sync/BackgroundSync.swift:142-145 | The caller joins the run in flight, or starts one |
| `BackgroundSync.Coordinator.Expire` | apps/apple/Sunrise/Sync/BackgroundSync.swift:151-155 | Every caller answered `failed` now, the run still in flight |
| `BackgroundSync.Coordinator.Finish` | apps/apple/Sunrise/Sync/BackgroundSync.swift:171-177 | The run over, its watchdog gone, its callers answered with its result |
| `ListSelection.TargetsAreRowsInOrder` | apps/apple/Sunrise/Keyboard/ListSelection.swift:48-51 | After any keys and any changes of the list: targets are rows of the list, in screen order, each once, and empty only with nothing ticked and no cursor |
| `ListSelection.EveryRunStaysOnTheList` | apps/apple/Sunrise/Keyboard/ListSelection.swift:77-201 | Cursor, anchor and every tick are always rows of the list |
| `ListSelection.ExtendsKeepTheRange` | apps/apple/Sunrise/Keyboard/ListSelection.swift:132-143 | Any run of extends keeps the anchor, and the ticks exactly the rows from it to the cursor |
| `ListSelection.ExtendMakesARange` | apps/apple/Sunrise/Keyboard/ListSelection.swift:132-143 | One extend that moves makes the ticks such a range, from any selection |
| `ListSelection.RangeTargetsAreContiguous` | apps/apple/Sunrise/Keyboard/ListSelection.swift:48-51 | The targets of a range are that slice of the list |
| `ListSelection.ReversingUndoesAnExtend` | apps/apple/Sunrise/Keyboard/ListSelection.swift:124-143 | Reversing direction takes back the last step exactly |
| `ListSelection.TheNextRowTakesTheCursor` | apps/apple/Sunrise/Keyboard/ListSelection.swift:65-94 | Completing the row under the cursor puts it on the row that took its place, or the last |
| `ListSelection.ReconcileKeepsACursorIff` | apps/apple/Sunrise/Keyboard/ListSelection.swift:77-94 | A list with rows keeps a cursor exactly when it had one |
| `ListSelection.CursorFollowsTheLastGainedIff` | apps/apple/Sunrise/Keyboard/ListSelection.swift:169-178 | A selection made by the list puts the cursor on the last row it gained exactly when that is the cursor already, or the cursor is not selected and no selected row stands above a gained one |
| `ListSelection.AnAdoptedRangeCanShrink` | apps/apple/Sunrise/Keyboard/ListSelection.swift:132-178 | Three rows shift-clicked from the top, then `Shift+Down`: the third is let go |
| `ListSelection.Model.Reconcile` | apps/apple/Sunrise/Keyboard/ListSelection.swift:77-94 | The new rows, ticks and anchor cut to them, the cursor where a human expects it |
| `ListSelection.Model.Move` | apps/apple/Sunrise/Keyboard/ListSelection.swift:107-116 | One row on, range and ticks dropped, or the range collapsed at an end |
| `ListSelection.Model.MoveToEdge` | apps/apple/Sunrise/Keyboard/ListSelection.swift:118-124 | The end of a list that has one |
| `ListSelection.Model.Extend` | apps/apple/Sunrise/Keyboard/ListSelection.swift:132-143 | The range recomputed from the anchor |
| `ListSelection.Model.ToggleAtCursor` | apps/apple/Sunrise/Keyboard/ListSelection.swift:151-159 | The cursor's row ticked or unticked, the anchor on it |
| `ListSelection.Model.Focus` | apps/apple/Sunrise/Keyboard/ListSelection.swift:162-167 | One row of the list, nothing ticked |
| `ListSelection.Model.Adopt` | apps/apple/Sunrise/Keyboard/ListSelection.swift:172-178 | A selection cut to the list, the cursor on its first row unless already in it |
| `ListSelection.Model.SelectAll` | apps/apple/Sunrise/Keyboard/ListSelection.swift:180-184 | Every row ticked |
| `ListSelection.Model.ClearSelection` | apps/apple/Sunrise/Keyboard/ListSelection.swift:188-191 | Ticks dropped, the cursor kept |
| `Reminders.IdentifiersAreUnique` | apps/apple/Sunrise/Notifications/ReminderPlan.swift:97-109 | Two reminders have one identifier exactly when source, entity and fire time are all the same, whatever characters the entity holds |
| `Reminders.TheCapKeepsTheEarliest` | apps/apple/Sunrise/Notifications/ReminderPlan.swift:112-121 | The plan is as long as the cap allows, earliest first, and nothing it drops fires before anything it keeps |
| `Reminders.APassHoldsWhatIsWanted` | apps/apple/Sunrise/Notifications/ReminderPlan.swift:173-184 | After a pass an identifier of ours is pending exactly when it is wanted and was pending or not refused; others' are untouched |
| `Reminders.ASecondPassOnlyRetries` | apps/apple/Sunrise/Notifications/ReminderPlan.swift:173-184 | A second pass over the same wishes cancels nothing and schedules exactly what the OS refused the first: nothing, if and only if it refused nothing new |
| `Reminders.ScheduledOnlyOnEntry` | apps/apple/Sunrise/Notifications/ReminderPlan.swift:173-184 | Over any series of passes, each refused anything: a pass schedules an identifier exactly when it wants it and the OS does not hold it from before, from the start or from an unrefused pass since which all have wanted it; with nothing refused, exactly when the pass before did not want it |
| `Reminders.APlannedPassHolds` | apps/apple/Sunrise/Notifications/ReminderPlan.swift:173-184 | After a pass a planned reminder is pending exactly if it was or the OS took it, no other reminder is, and nobody else's notification is touched |
| `ReminderPasses.APassAloneIsAPass` | apps/apple/Sunrise/Notifications/ReminderScheduler.swift:121-150 | A pass cut at its awaits, with nothing overlapping it, is the pass of `Reminders` |
| `ReminderPasses.PendingIsTheLastTouch` | apps/apple/Sunrise/Notifications/ReminderScheduler.swift:121-150 | However passes overlap, an identifier is pending exactly as the last step to schedule or withdraw it left it |
| `ReminderPasses.OthersAreLeftAlone` | apps/apple/Sunrise/Notifications/ReminderScheduler.swift:121-150 | And nobody else's notifications are touched |
| `ReminderPasses.ScheduledAgainIff` | apps/apple/Sunrise/Notifications/ReminderScheduler.swift:121-150 | A pass schedules again an alert the OS holds exactly when, since that pass read what was pending, the last step to touch it scheduled it |
| `ReminderPasses.TwoPassesCanScheduleTwice` | apps/apple/Sunrise/Notifications/ReminderScheduler.swift:121-150 | Two passes that overlap do |
| `ReminderPasses.AnEarlierPassCanComeLast` | apps/apple/Sunrise/Notifications/ReminderScheduler.swift:121-150 | And one begun earlier can bring back what a later, finished one did not want |
| `ReminderContent.APassSays` | apps/apple/Sunrise/Notifications/ReminderPlan.swift:173-184 | What each alert says after a pass: one held and still wanted what it said, a new one what the plan says unless refused, the others gone, nobody else's touched |
| `ReminderContent.HoldsTheSameIds` | apps/apple/Sunrise/Notifications/ReminderPlan.swift:173-184 | By identifier this is the pass of `Reminders` |
| `ReminderContent.APassMatchesIff` | apps/apple/Sunrise/Notifications/ReminderPlan.swift:163-184 | What the OS holds matches the plan after a pass exactly when it refuses nothing new and no alert it held was to say something else |
| `ReminderContent.AnAlertSaysWhatItWasScheduledWith` | apps/apple/Sunrise/Notifications/ReminderPlan.swift:163-184 | Over any series of passes that want it, an alert says what it was scheduled with, so what the last plan says exactly when that has not changed |
| `ReminderContent.ARenamedTaskKeepsItsAlert` | apps/apple/Sunrise/Notifications/ReminderPlan.swift:97-109 | A task renamed after its reminder was scheduled keeps the old title in it |
| `Reminders.ReminderScheduler.ReconcileNow` | apps/apple/Sunrise/Notifications/ReminderScheduler.swift:121-150 | One pass: nothing when the reminders cannot be read; otherwise what is wanted, what the plan was, whether anything was refused, and exactly which of the app's identifiers the OS then holds |
| `VaultSession.NoVaultIsLost` | apps/apple/Sunrise/Identity/SessionModelRestore.swift:90-169 | Over every run in which nothing else happens while a restore waits, refused, incomplete or failing anywhere: every vault ever on disk is still on disk, in place or set aside |
| `VaultSession.EveryVaultIsKeptIff` | apps/apple/Sunrise/Identity/SessionModelRestore.swift:156-169 | At any point of any run from a launch, one step loses a vault exactly when it is the end of a refused restore that clears a vault written while it waited |
| `VaultSession.AVaultMadeDuringARestoreIsLost` | apps/apple/Sunrise/Identity/SessionModelRestore.swift:90-132 | A run in which it happens: a vault created while a restore waits is cleared, and its root stays stored |
| `VaultSession.ARefusedRestoreChangesNothingIff` | apps/apple/Sunrise/Identity/SessionModelRestore.swift:105-169 | A refused restore leaves everything as it found it exactly when the random source answers and the leftovers can be cleared and the vault moved back; the vault is on disk either way |
| `VaultSession.EveryRunIsSound` | apps/apple/Sunrise/Identity/SessionModel.swift:233-282 | Over every run from a launch: vaults stay apart and roots made later are none of those in use |
| `VaultSession.TheStoredRootFitsIff` | apps/apple/Sunrise/Identity/SessionModel.swift:261-282 | From any launch, one thing at a time, restores able to store what they wrote: a root is stored only for a vault that is there and written under it, throughout, exactly when every created root was opened and every adopted one was the directory's or, with no vault there, opened |
| `VaultSession.StoringFitsIff` | apps/apple/Sunrise/Identity/SessionModel.swift:404-421 | Of one step after any run, other operations during a restore included, the exact condition, which has to look at the directory again |
| `VaultSession.ARestartFindsItsVaultIff` | apps/apple/Sunrise/Identity/SessionModel.swift:233-254 | A restart opens the vault that was there and writes nothing exactly when the stored root fits |
| `VaultSession.CreatingCanStoreForNothing` | apps/apple/Sunrise/Identity/SessionModel.swift:261-282 | A created root that was not opened is stored for no vault, and the next launch writes an empty one |
| `VaultSession.AdoptingCanEndInAnEmptyVault` | apps/apple/Sunrise/Identity/SessionModel.swift:404-421 | So is a paired one, and the next launch opens an empty vault under the account's root |
| `VaultSession.CreatingAfterAnUnkeptRestoreShutsItOut` | apps/apple/Sunrise/Identity/SessionModel.swift:261-282 | A restore whose root could not be stored, then a create: the restored vault is shut out under a root that is not its own |
| `VaultSession.AWrittenRestoreOpensIff` | apps/apple/Sunrise/Identity/SessionModelRestore.swift:113-132 | A restore that wrote its vault, caught up or not, opens after a restart exactly when its root could be stored |
| `VaultSession.SessionModel.Start` | apps/apple/Sunrise/Identity/SessionModel.swift:233-254 | The launch decision: misconfigured, refused, first run, key missing, opened or failed |
| `VaultSession.SessionModel.CreateVault` | apps/apple/Sunrise/Identity/SessionModel.swift:261-282 | Only from a first run: a root stored, then the vault opened under it |
| `VaultSession.SessionModel.AdoptPairing` | apps/apple/Sunrise/Identity/SessionModel.swift:404-421 | Not over an open vault nor for a root of the wrong length: the root stored, then the vault opened under it, with the bundle where it is written |
| `VaultSession.SessionModel.BeginRestore` | apps/apple/Sunrise/Identity/SessionModelRestore.swift:100-105 | Only from a first run or a missing key and with a relay: whatever the directory holds set aside, then a root made |
| `VaultSession.SessionModel.EndRestore` | apps/apple/Sunrise/Identity/SessionModelRestore.swift:113-169 | Stored and opened, or put back, for each way a recovery ends |
| `RRule.RenderingRoundTrips` | crates/sunrise-domain/src/rrule.rs:261-303 | Parsing the rendered form of any parsed rule gives the same rule, and rendering that the same text |
| `RRule.ReadBackIff` | crates/sunrise-domain/src/rrule.rs:261-303 | Any rule survives its text exactly when no frequency, day, week start or UNTIL zone holds `;`, no day of BYDAY a `,`, the interval is not nought, its UNTIL is of a known kind and it carries no field from a newer build |
| `RRule.UntilIsReadBack` | crates/sunrise-domain/src/rrule.rs:379-403 | Each of the four shapes of UNTIL is read back from its text as the kind it was |
| `RRule.ParsedIsSayable` | crates/sunrise-domain/src/rrule.rs:171-259 | Whatever the parser admits, out-of-range days and a count of nought included, has a text |
| `RRule.ComputeParse` | crates/sunrise-domain/src/rrule.rs:171-259 | The parser's loop over parts, with every error |
| `Text.SplitJoin` | crates/sunrise-domain/src/rrule.rs:185-188 | Joined parts are split back where none holds the separator |
| `Text.I32IsRead` | crates/sunrise-domain/src/rrule.rs:210-217 | A signed number written is the number read, over the whole 32-bit range |
| `Text.U32IsRead` | crates/sunrise-domain/src/rrule.rs:197-204 | An unsigned one likewise |
| `Expansion.ExpansionStaysInsideItsWindow` | crates/sunrise-domain/src/routine_gen.rs:407-495 | Every occurrence is inside the half-open window, on or after the anchor, allowed by UNTIL, one of its period's dates; at most COUNT of them |
| `Expansion.NothingInTheWindowIsMissing` | crates/sunrise-domain/src/routine_gen.rs:407-495 | And every occurrence of the series inside the window, COUNT and UNTIL applied, is in the expansion |
| `Expansion.AnExpansionIsExactly` | crates/sunrise-domain/src/routine_gen.rs:407-495 | Without COUNT and UNTIL: exactly the dates of reachable periods on or after the anchor whose instants are inside the window |
| `Expansion.WindowsAgree` | crates/sunrise-domain/src/routine_gen.rs:390-406 | COUNT and UNTIL count from the anchor, not the window: an occurrence inside two windows is in both expansions or in neither |
| `Expansion.Expand` | crates/sunrise-domain/src/routine_gen.rs:407-495 | The scan itself, period by period, with its stops and its cap |
| `Candidates.DatesAreTheCandidates` | crates/sunrise-domain/src/routine_gen.rs:189-334 | The dates of a period are exactly those its frequency and BY-parts offer, the anchor's own values filling in, in order and each once |
| `Candidates.OfferedIffAskedFor` | crates/sunrise-domain/src/routine_gen.rs:218-334 | A date is offered exactly when section 3.3.10 of RFC 5545 asks for it, except that a yearly rule that says days and no months is offered only those of the anchor's month |
| `Candidates.OffersWhatIsAskedIff` | crates/sunrise-domain/src/routine_gen.rs:269-292 | A rule is offered what the standard asks for, from every anchor, exactly when it is not yearly with BYDAY or BYMONTHDAY and no BYMONTH, or names no day there is |
| `Candidates.EveryMondayOfTheYearIsNotOffered` | crates/sunrise-domain/src/routine_gen.rs:269-292 | `FREQ=YEARLY;BYDAY=MO` is not |
| `Candidates.EveryMonthsDayIsNotOffered` | crates/sunrise-domain/src/routine_gen.rs:269-292 | Nor is `FREQ=YEARLY;BYMONTHDAY` of any day up to the 28th |
| `Candidates.AnExpansionIsWhatIsAskedFor` | crates/sunrise-domain/src/routine_gen.rs:407-495 | Every other rule without COUNT, UNTIL and BYSETPOS expands over a window to exactly the dates the standard asks for whose instants are inside it |
| `Candidates.WindowsAgreeOnTheDatesOffered` | crates/sunrise-domain/src/routine_gen.rs:407-495 | With no assumption left about the dates: an expansion holds only dates offered, and two windows never disagree |
| `Candidates.NoDateComesUpTwice` | crates/sunrise-domain/src/routine_gen.rs:189-334 | A series only goes forward: no date comes up twice, within a period or across two |
| `Candidates.PeriodCandidates` | crates/sunrise-domain/src/routine_gen.rs:218-334 | The candidates of a period as they are gathered, for each frequency |
| `Candidates.ComputeDates` | crates/sunrise-domain/src/routine_gen.rs:451-453 | Gathered, sorted and without repeats they are the dates of the period |
| `PairingSafety.AdoptsOnlyWhatBothAgreedTo` | crates/sunrise-pairing/src/protocol/grant.rs:147-192 | Any courier, attempts and interleaving: if the user of the added device says "matched" only of digits the holder has shown, a root adopted is the account's, both users agreed to that one transcript, and the certificate names the keys minted in that attempt |
| `PairingSafety.TheVaultIsSealedOnlyForWhoShowedTheDigits` | crates/sunrise-client-core/src/pairing/device.rs:337-344 | If the holder's user does, every grant ever handed to the courier is for a device that showed those digits and keys it minted, under a transcript the courier is no party to |
| `PairingSafety.AStoppedAttemptAdoptsNothing` | apps/apple/Sunrise/Pairing/PairingModel.swift:403-417 | A cancel, or digits said to differ, at the device being added: whatever the courier, the other user and the calls still suspended do after it, no root is adopted in that attempt any more |
| `PairingSafety.AStoppedAttemptSealsIff` | crates/sunrise-client-core/src/pairing/device.rs:245-257 | At the holder, a cancel or digits said to differ: some run from there still seals for that attempt exactly when the calls suspended in it, asked in some order, have the vault answer one with a text |
| `PairingSafety.OneSuspendedCallSealsIff` | crates/sunrise-client-core/src/pairing/device.rs:245-257 | With one call suspended: exactly when the vault answers it with a text now, and then its digits had been agreed to |
| `PairingSafety.AnEndedAttemptGivesOut` | crates/sunrise-client-core/src/pairing/device.rs:245-257 | Whatever is given out under an attempt that has ended was sealed before, or is sealed for such a call |
| `PairingSafety.ARejectionIsForGood` | apps/apple/Sunrise/Pairing/PairingModel.swift:365-378 | Digits said to differ are never adopted on, whatever the courier and the other user do afterwards |
| `PairingSafety.AMismatchStandsIff` | apps/apple/Sunrise/Pairing/PairingModel.swift:365-378 | Over every run without a cancel or a new start: a device whose digits differed says so exactly until a call suspended earlier goes on, and never again |
| `PairingSafety.AStoppedDeviceShows` | apps/apple/Sunrise/Pairing/PairingModel.swift:307-353 | A device whose session is gone, left alone, keeps its screen until a call suspended earlier goes on, and then shows what the vault has answered the last of those with, before the stop or since, without a session |
| `PairingSafety.ACancelledDeviceHandsOverIff` | apps/apple/Sunrise/Pairing/PairingModel.swift:403-417 | A cancelled device left alone is at the start of the script exactly until a suspended call goes on, and shows a text to hand over exactly when the last to go on was answered with one, before the cancel or after it |
| `PairingRuns.EveryRunIsSound` | crates/sunrise-client-core/src/pairing/device.rs:357-366 | Every run keeps: what a device has said only it could have said, a channel is open only on digits agreed to, peers are one stranger or one attempt of the other device, and a grant certifies the keys of its own transcript |
| `PairingStories.TheAccountCrosses` | apps/apple/Sunrise/Pairing/PairingModel.swift:307-353 | Truthful users and a courier that delivers: all eight legs are walked, each suspended call answered, and the account crosses once |
| `PairingStories.TheAccountCrossesAfterACancel` | apps/apple/Sunrise/Pairing/PairingModel.swift:403-417 | A run from the start, both users truthful: the holder cancels while the vault has a request to answer, the grant is sealed and shown all the same, and the account crosses |
| `PairingStories.WithoutComparingAStrangerIsAdopted` | apps/apple/Sunrise/Pairing/PairingModel.swift:365-390 | The comparison is what protects: without it a stranger's root is adopted in nine steps |
| `PairingModel.PairingScreen.Begin` | apps/apple/Sunrise/Pairing/PairingModel.swift:266-279 | A new attempt with fresh keys, only without a session, or an error when no code can be made |
| `PairingModel.PairingScreen.AdvanceLeg` | apps/apple/Sunrise/Pairing/PairingModel.swift:282-286 | The next leg, only from a hand-off |
| `PairingModel.PairingScreen.StepPast` | apps/apple/Sunrise/Pairing/PairingModel.swift:445-487 | What the screen shows after each leg, for each side |
| `PairingModel.PairingScreen.Submit` | apps/apple/Sunrise/Pairing/PairingModel.swift:307-353 | What a pasted text does at each leg, refusals included |
| `PairingModel.PairingScreen.AcceptGrant` | apps/apple/Sunrise/Pairing/PairingModel.swift:332-341 | The grant opened, checked against the offer's identity and the minted keys, and its root handed over |
| `PairingModel.PairingScreen.Confirm` | apps/apple/Sunrise/Pairing/PairingModel.swift:365-389 | The session dropped, or the channel opened and, at the holder, the sealing of the offer waited for |
| `PairingModel.PairingScreen.GoOn` | apps/apple/Sunrise/Pairing/PairingModel.swift:490-506 | What is written after each await, whatever the screen has moved to meanwhile |
| `PairingModel.PairingScreen.Cancel` | apps/apple/Sunrise/Pairing/PairingModel.swift:403-417 | No session, and the start of the script |
| `Capture.EveryWordIsKeptSpentOrReplaced` | crates/sunrise-domain/src/capture.rs:134-228 | Every word of a line belongs to exactly one event: kept, it is in the title; spent, its facet is in the draft, unless and only unless it is of a single-valued kind and the last of that kind on the line is another |
| `Capture.TheDraftHoldsTheLast` | crates/sunrise-domain/src/capture.rs:134-228 | The draft holds every context in order, and of each other kind of facet the last applied, or none when none was |
| `Capture.AReplacedWordLeavesNoTrace` | crates/sunrise-domain/src/capture.rs:167-176 | Of two priorities on a line the first is in neither title, draft nor report |
| `Capture.TheTitleIsOfTheLine` | crates/sunrise-domain/src/capture.rs:134-228 | The title is exactly the kept words, in the line's order, each once |
| `Capture.TheTitleReadsBack` | crates/sunrise-domain/src/capture.rs:226-227 | Splitting the title at spaces gives those words again |
| `Capture.KeptIsReportedIff` | crates/sunrise-domain/src/capture.rs:150-224 | A word kept in the title is reported as unresolved exactly when it looked like an annotation |
| `Capture.WhatIsReported` | crates/sunrise-domain/src/capture.rs:134-228 | What is reported is exactly what was kept for a reason, in order |
| `Capture.TheLongestDateWins` | crates/sunrise-domain/src/capture.rs:347-370 | `^` spends the longest phrase of at most three words that is a date, and is kept only when none is |
| `Capture.ResolvesIffClear` | crates/sunrise-domain/src/capture.rs:272-310 | A name resolves exactly when it means some candidate, and to that one: the first whose whole name it is, or, when it is none's, the only one it begins; otherwise it is unknown or ambiguous among those it begins |
| `Capture.ComputeParse` | crates/sunrise-domain/src/capture.rs:134-228 | The parser's loop over words |
| `Capture.ComputeTakeDate` | crates/sunrise-domain/src/capture.rs:347-370 | The loop over spans, longest first |

## Left out

- AccountSafety.SignedOutStaysOut: assumes fewer than 2^64 sign-outs in one process; past that the wrapped generation can match again, which `AccountSafety.LoginIsAdoptedIff` states exactly.
- AccountSafety.ARefusedTokenIsNotOfferedAgain: assumes an issuer that never mints a refresh token twice and a Keychain that lets go when asked; the one condition on the app is stated exactly by `AccountSafety.ARefusedTokenIsKeptIff`.
- AccountModel.AccountModel.RenewWhileRunning: the interruptions are sign-outs, reads and dismissals; logins interleaved with a renewal are in `AccountRuns`, not in the loop.
- VaultSession.NoVaultIsLost: needs nothing else to run while a restore waits, because without that it is false; `VaultSession.EveryVaultIsKeptIff` is the condition step by step. In all of `VaultSession` a restore begins only when none is waiting; the source goes by the phase alone, and two restores at once are not covered.
- VaultSession.TheStoredRootFitsIff: needs the same, and that a restore that wrote its vault could store its root; `VaultSession.StoringFitsIff` is the condition step by step without either.
- RRule.RenderingRoundTrips: how a bare instant, date-time and date are read and written is the civil-time library's, assumed to read what it writes; the four shapes of UNTIL built on them are modelled.
- Candidates.DatesAreTheCandidates: where months begin is a parameter, with months of 28 to 31 days.
- Candidates.OffersWhatIsAskedIff: BYMONTHDAY under WEEKLY, which RFC 5545 forbids, is taken as a limit; ordinal days of BYDAY and the parts the parser refuses are outside it.
- Expansion.WindowsAgree: the calendar is a parameter; that a period's dates are not before its start is proved in `Candidates`, that a date after the window's last one fires at its end or later is assumed.
- BlockLayout.WidthIsTheBusiestInstant: for blocks that end after they start; the other layout properties hold of any blocks.
- StreamOrder.DragLandsAsDragged: rows with equal keys are ordered by id, which stands for the name and id the query breaks ties by.
- ChangeRuns.EveryScreenCatchesUp: says that deliveries suffice, not that a scheduler makes them.
- 64-bit overflow of instants in block arithmetic and of token expiry times; times are unbounded.
- The bytes of a stored note and their decoding; a note is its blocks and whether they were exact.
- NoteEditing.SavingBringsBackIff: links whose address does not parse as a URL, and link attributes or line breaks that pasting may bring in, are not modelled; a selection is the set of glyphs it covers.
- Decoding of stored credentials and vault roots; switching between vaults and adding one.
- The recovery ceremony, relay-device registration and the relay id a restore records.
- VaultSession.SessionModel.Start: opening is one step here, so a second start that joins one under way does not arise; nor does what a vault that would not open leaves behind.
- TaskVault.Vault.MoveTasks: every id is taken to be a task's; the checks of an id's kind are not modelled.
- ReminderPasses.ScheduledAgainIff: reading the wanted reminders, suspended too, is the beginning of a pass here.
- PairingSafety.AdoptsOnlyWhatBothAgreedTo: two transcripts with the same six digits are not modelled, nor the strength of the handshake itself; the relay variant of pairing is left out, its legs being the same ones.
- ReminderContent.APassMatchesIff: for passes one at a time; passes that overlap are in `ReminderPasses`, by identifier.
- Capture.EveryWordIsKeptSpentOrReplaced: what a date phrase means and how names are case-folded are parameters; a line is its words, cut at white space already.
- Deep links and printing.
- Cryptography, the merge of concurrent edits, the relay and its wire format, real time zones, views and texts.
