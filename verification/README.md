# Reebaplus POS: verified models of its server protocols and kernels

This project models the parts of Reebaplus POS whose correctness depends on order,
on crashes or on arithmetic, and proves what their comments promise, or exactly
when the promise holds. `dafny verify dfyconfig.toml` checks everything.

**Shared barcode photos** (`Share*.dfy`). The first photo saved for a factory
barcode is copied to a shared bucket and stays. Many runs of
`shareFirstUnblocked` may race for one barcode. `ShareMachine` has a run as local
variables plus a program counter and one port call per step; a schedule starts
runs, lets one make its next call, kills one, or blocks a hash.
`ShareRaces` proves, for every schedule that blocks a hash only at a safe moment
(in particular for every fixed block list), that rows and objects agree, that there
is one winner, that the first photo stays and that no stray copy survives.
`ShareBlocked` proves that what is blocked before a run starts is never shared, in any
schedule; `ShareLateBlock` says exactly which runs can still share what is blocked later.
`ShareSerial` covers runs that do not overlap, with hashes blocked at any moment.
`ShareOrphanRace` shows where the header's claim about races fails. For a fixed
block list, as soon as two different photos of a type may be shared, that is exactly
an object without a row whose hash is blocked. For a hash blocked while runs are
under way it says exactly which moments are safe.
`ShareOutcomes` says what a run answers in every interleaving, and why it passed over
each candidate. `ShareAlone` has the function in imperative form over its ports, follows it
through the state machine port call by port call, and proves that it refines
"the first eligible candidate, in order".

**Google Play plan switching** (`Play*.dfy`). `PlayDecision` holds the pure
decisions and the three database operations. `PlayService` has the handlers
as code that updates the table in place, as functions, and what every serial run
keeps. `PlayReports` says what one request does, state by state. `PlayHold` says for every serial history exactly when lapses are held, and
`PlaySwitch` carries that through a plan switch.
`PlayMachine` interleaves the handlers database call by database call, with failed
reads and dead handlers: what survives that (who replaced whom, the account tag),
and what does not. `PlayStale` says exactly when a replaced token stays silent,
`PlayRebind` when a bound token keeps its business. `PlayParsing` has the choice of
line item and the secret compare.

**Account-deletion reconciler** (`Reconcile*.dfy`). `Reconcile` has the tables,
`processEvent` and the batch loop; `ReconcileMachine` runs any number of workers
with stale snapshots, lost updates and shops that go on working;
`ReconcileEffects` says field by field what an event and a batch leave behind;
`ReconcileProgress` which events the batches of 50 get to.

**Kernels.** `UsbWrite` (chunked transfer), `Gtin` (GS1 check digits) and
`EscapeHtml` (four replacements in a row).

Library calls are parameters about which nothing is assumed: SHA-256, URL parsing,
percent decoding, `trim` and `toLowerCase` (`Platform`), what Play keeps constant
per token (`Google`), the answers of the Admin API (`Answers`), the USB driver's
replies. Clocks are part of the request.

Where code and comments disagree, the code is followed:

- share.ts:14-21 says what happens to a blocked leftover object and to racing
  uploads; together they can leave a row whose hash is not its object's
  (`BlockedOrphanBreaksAgreement`, exact in `StoreAgreesExactlyWhen`), and so can a
  hash blocked in the middle of a race (`BlockMidRaceBreaksAgreement`, exact in
  `BlockSafeExactlyWhen`).
- share.ts:10 says a blocked hash is never shared; a hash blocked between a run's
  look-up and its insert is (`LateBlockIsShared`, exact in
  `BlockedFromNowOnExactlyWhen`).
- play.ts:125-130 says an early lapse is held until the paid end date; a held lapse is
  stored as the token's last report, so the next lapse is applied whoever reports it
  (exact in `HeldUntilReplaced`; identical deliveries counted in
  `HoldLastsOneDelivery`).
- index.ts:139-140 says a replaced token must never change the plan again; a
  handler that read the table before the mark still does
  (`StaleReadAppliesReplaced`, exact in `ReplacedSilentExactlyWhen`).
- index.ts:195 says a bound token can never be re-claimed; the lookup ignores its
  own failure (`ReclaimedExactlyWhenUntagged`), and two overlapping first calls both
  find the token free (`OverlappingCallsRebind`).
- reconcile-account-deletions/index.ts:26-27 says a login is only deleted when it
  is provably orphaned; a reference added after its lookup goes unnoticed
  (`DeletedWhileReferencedExactlyWhen`).

## Model

| member | source | states |
|---|---|---|
| SharePhoto.PathInjective | supabase/functions/share-barcode-photo/share.ts:110-117 | two names are equal exactly when barcode and extension are: one barcode's removals cannot touch another's objects |
| SharePhoto.NamedByType | supabase/functions/share-barcode-photo/share.ts:101-117 | exactly the six allowed types have a name: barcode, dot, and what follows the slash in the type, but jpg for both spellings of JPEG |
| SharePhoto.PhotoContentType | supabase/functions/share-barcode-photo/share.ts:189-195 | the bytes decide first; whatever comes out has an extension, so naming the copy never throws, and is never image/jpg |
| SharePhoto.SniffedExactly | supabase/functions/share-barcode-photo/share.ts:163-182 | JPEG, PNG and WebP are recognised exactly by their file signatures and nothing else is |
| SharePhoto.DeclaredTypeExactly | supabase/functions/share-barcode-photo/share.ts:189-195 | when the bytes say nothing, the declared type up to a semicolon counts, trimmed and in lower case, if it is one of the six, and JPEG has one spelling |
| SharePhoto.SegmentsJoin | supabase/functions/share-barcode-photo/share.ts:147 | splitting at slashes loses nothing and leaves no slash |
| SharePhoto.SourceStaysInBusinessFolder | supabase/functions/share-barcode-photo/share.ts:129-152 | an accepted source path is two or more plain names, the first being the product's own business folder |
| SharePhoto.AcceptedExactly | supabase/functions/share-barcode-photo/share.ts:129-152 | a URL is accepted if and only if its path is the public prefix of product-images and then, encoded, two or more plain names of which the first is the business folder, and the answer is those names |
| SharePhoto.JoinSegments | supabase/functions/share-barcode-photo/share.ts:147 | names without slashes are found again after joining and splitting |
| ShareMachine.SearchStep | supabase/functions/share-barcode-photo/share.ts:207-238 | searching for a candidate changes nothing stored and ends with an unblocked, hashed, correctly named photo or a truthful answer |
| ShareMachine.RunsTerminate | supabase/functions/share-barcode-photo/share.ts:201-284 | in every interleaving a run over n candidates is finished after at most 2n + 10 of its own port calls |
| ShareOutcomes.OutcomesSay | supabase/functions/share-barcode-photo/share.ts:206-283 | in every interleaving: nothing_to_share comes with one skip for every candidate in order, shared and already_shared with those before the one in hand, or none if the row was found at once; shared names that candidate; an unusable URL is the reason exactly when it is one |
| ShareOutcomes.AdoptedExactlyWhen | supabase/functions/share-barcode-photo/share.ts:247-260 | in every interleaving a run says it adopted an orphan if and only if it made the insert that records one |
| ShareOutcomes.ReadTellsWhy | supabase/functions/share-barcode-photo/share.ts:217-231 | a download is passed over as missing, as larger than 5242880 bytes or as of no known type exactly when it is, in that order, and is otherwise hashed as it is |
| ShareOutcomes.CheckTellsWhy | supabase/functions/share-barcode-photo/share.ts:231-235 | a photo is passed over as blocked exactly when its hash is on the list at that moment |
| ShareOutcomes.OnlyFitPhotos | supabase/functions/share-barcode-photo/share.ts:217-240 | in every interleaving: what is new in the bucket is at most 5 MB, of one of five types, the one its bytes say if they say one, and named by its barcode and that type |
| ShareRaces.StepEvolves | supabase/functions/share-barcode-photo/share.ts:240-273 | no port call removes or replaces an object its barcode's row names or may still name: while there is no row nothing has been removed |
| ShareRaces.RowsAgreeAlways | supabase/functions/share-barcode-photo/share.ts:201-284 | any runs, any interleaving, crashes anywhere, hashes blocked at safe moments: the object a row names is there and hashes to the row's sha256 |
| ShareRaces.OneWinner | supabase/functions/share-barcode-photo/share.ts:207-280 | at most one run of a barcode reports shared, with the row's hash; every already_shared is true |
| ShareRaces.FirstPhotoStays | supabase/functions/share-barcode-photo/share.ts:7-8 | once there, a barcode's row and the contents of the object it names never change |
| ShareRaces.NoStrayCopies | supabase/functions/share-barcode-photo/share.ts:237-273 | when all runs of an initially empty barcode have returned, it has exactly its row's object, or none without a row |
| ShareBlocked.BlockedNeverShared | supabase/functions/share-barcode-photo/share.ts:231-268 | from any leftovers, in every interleaving, further blocks included: no row inserted since carries a hash blocked at the start or names contents with one, at any time |
| ShareLateBlock.LateBlockIsShared | supabase/functions/share-barcode-photo/share.ts:231-280 | one run alone, whose photo is blocked between its look-up and its upload, reports shared and leaves a row with a blocked hash |
| ShareLateBlock.BlockedFromNowOnExactlyWhen | supabase/functions/share-barcode-photo/share.ts:231-268 | with any runs under way and a hash blocked: no continuation shares it under a barcode without a row if and only if no run of such a barcode is past its look-up of that hash, with its own photo or the object it found |
| ShareLateBlock.RunsAreFormed | supabase/functions/share-barcode-photo/share.ts:229-240 | in every reachable world each run holds a hashed photo and a name of its own barcode from the point where it needs them |
| ShareSerial.SerialRowsAgree | supabase/functions/share-barcode-photo/share.ts:240-280 | runs that do not overlap keep rows and objects in agreement from any leftovers, with crashes and a growing block list |
| ShareOrphanRace.BlockedOrphanBreaksAgreement | supabase/functions/share-barcode-photo/share.ts:244-265 | in every world with a blocked object without a row, two more overlapping runs can both report shared and leave a row with the wrong hash |
| ShareOrphanRace.AgreementExactlyWithoutBlockedOrphan | supabase/functions/share-barcode-photo/share.ts:14-21 | at one name with two rival photos and a fixed block list, every interleaving agrees if and only if the object under that name is not blocked |
| ShareOrphanRace.StoreAgreesExactlyWhen | supabase/functions/share-barcode-photo/share.ts:14-21 | for a whole store and a fixed block list, every interleaving agrees if and only if no object of a barcode without a row is blocked |
| ShareOrphanRace.BlockMidRaceBreaksAgreement | supabase/functions/share-barcode-photo/share.ts:237-265 | with nothing under the name yet, a hash blocked between one run's upload and the other's check lets both report shared and leaves a row with the wrong hash |
| ShareOrphanRace.BlockSafeExactlyWhen | supabase/functions/share-barcode-photo/share.ts:201-284 | with any runs under way, blocking a hash keeps every continuation in agreement if and only if no object without a row has it, no run is about to upload one and no run is looking at a live one |
| ShareAlone.FirstEligible | supabase/functions/share-barcode-photo/share.ts:211-235 | the first candidate with no obstacle; every earlier one has one |
| ShareAlone.AloneFollowsRule | supabase/functions/share-barcode-photo/share.ts:206-283 | an uninterrupted run shares the first eligible candidate, reports exactly the earlier ones with their reasons, and makes at most 2n + 9 port calls |
| ShareAlone.Ports.UploadShared | supabase/functions/share-barcode-photo/index.ts:145-157 | upload never overwrites and says whether the object was there |
| ShareAlone.Ports.InsertSharedRow | supabase/functions/share-barcode-photo/index.ts:166-178 | insert does nothing on conflict |
| ShareAlone.Settle | supabase/functions/share-barcode-photo/share.ts:268-280 | each port call is the machine's next step, from the insert to the answer |
| ShareAlone.Confirm | supabase/functions/share-barcode-photo/share.ts:270-280 | the check after the insert, and the removal when another object's row was first, are the machine's steps |
| ShareAlone.RecordOrphan | supabase/functions/share-barcode-photo/share.ts:247-260 | an unblocked leftover is recorded, a blocked one removed, as the machine does |
| ShareAlone.ResolveExisting | supabase/functions/share-barcode-photo/share.ts:241-265 | what is done about a name already taken is the machine's path |
| ShareAlone.Examine | supabase/functions/share-barcode-photo/share.ts:211-238 | one turn of the loop: the photo to upload or the reason to skip, along the machine's path |
| ShareAlone.ShareFirstUnblocked | supabase/functions/share-barcode-photo/share.ts:201-284 | the function makes the machine's moves call by call and leaves store and outcome as the rule says |
| PlayService.Service.PersistAndApply | supabase/functions/play-billing-verify/index.ts:110-169 | the new table, log and decision are the serial function of the old ones; for the token's own business and link, bindings and replacements are kept and no replaced token is applied |
| PlayService.Service.HandleAppVerify | supabase/functions/play-billing-verify/index.ts:172-226 | the whole effect of an app's verify call, refusals included; no binding or replacement is lost and no replaced token is applied |
| PlayService.Service.HandleRtdn | supabase/functions/play-billing-verify/index.ts:229-268 | the whole effect of a notification, ignored ones included; no binding or replacement is lost and no replaced token is applied |
| PlayService.AdmitBinds | supabase/functions/play-billing-verify/index.ts:195-217 | only the business a token is bound to is ever admitted for it |
| PlayReports.FirstReport | supabase/functions/play-billing-verify/play.ts:132-154 | the first report of a token, let through for a business, is stored and applied whatever its state, link, notification and clock |
| PlayReports.FirstPurchase | supabase/functions/play-billing-verify/index.ts:172-226 | a shop's first purchase, its owner's call for an unlinked token with its own tag or none: the whole new table and log |
| PlayReports.FirstRefused | supabase/functions/play-billing-verify/play.ts:166-177 | an unknown token's request that is let through for nobody changes nothing |
| PlayReports.KnownReport | supabase/functions/play-billing-verify/index.ts:119-169 | a known token's own row and the log: stored always, applied unless the token is replaced or the report is a lapse held by the stored state, its date and the notification |
| PlayReports.HeldExactlyByState | supabase/functions/play-billing-verify/play.ts:92-95 | a lapse is held exactly against ACTIVE, IN_GRACE_PERIOD or CANCELED with an end date still to come, and never for a revoke |
| PlayReports.OtherRowsExactly | supabase/functions/play-billing-verify/index.ts:139-148 | no other row changes but the one the token replaces, which is marked for each of seven states and for none of the two pending ones |
| PlayReports.AppVerifyAnswers | supabase/functions/play-billing-verify/index.ts:172-217 | an app's call is turned away for the first of five reasons that holds, and only then |
| PlayReports.RtdnAnswers | supabase/functions/play-billing-verify/index.ts:229-268 | a notification is ignored exactly when it acts for no business, and then changes nothing |
| PlayService.SerialRunsKeep | supabase/functions/play-billing-verify/index.ts:139-158 | serial runs: a bound token keeps its business, replaced_by_token is written once and joins two rows of one business, a replaced token is never applied again |
| PlayHold.HeldUntilReplaced | supabase/functions/play-billing-verify/play.ts:125-152 | for every serial history: no lapse of a stored token is applied if and only if each lapse that reaches it before it is marked as replaced is no revoke and finds the token's previous report still paid |
| PlayHold.HeldExactlyWhen | supabase/functions/play-billing-verify/play.ts:125-152 | the same as a condition on the events alone while nothing that could replace the token is reported |
| PlayHold.HoldLastsOneDelivery | supabase/functions/play-billing-verify/play.ts:143-152 | for every row, clock and number of identical deliveries of a lapse, the exact log: the first is held exactly when still paid and not a revoke, all later ones are applied |
| PlayHold.RedeliveryHeld | supabase/functions/play-billing-verify/play.ts:143-152 | identical deliveries meet the general condition exactly when the lapse is held and comes once |
| PlaySwitch.TakeoverStep | supabase/functions/play-billing-verify/index.ts:139-148 | a non-pending report of the new token leaves the old one marked and puts the new plan in force |
| PlaySwitch.LapseStep | supabase/functions/play-billing-verify/play.ts:143-152 | a lapse of the unreplaced old token applies nothing exactly when it is no revoke and the stored report is still paid |
| PlaySwitch.SwitchKeepsPlan | supabase/functions/play-billing-verify/index.ts:119-168 | whatever is served before the takeover and after it: from the takeover on nothing of the old token is applied and the new plan is in force, and no lapse of the old token is ever applied iff each one before the takeover was held |
| PlayMachine.AloneIsSerial | supabase/functions/play-billing-verify/index.ts:172-268 | an uninterrupted request does what the serial handler does |
| PlayMachine.LostIsMissing | supabase/functions/play-billing-verify/index.ts:195-205 | a failing lookup of a handler goes on as if there were no rows; a failing call of persistAndApply ends the request with nothing written |
| PlayMachine.InterleavedRunsKeep | supabase/functions/play-billing-verify/index.ts:195-217 | every interleaving, failed reads and deaths included: a tagged token belongs to its tag's business, replaced_by_token is written once and names a stored token Play links to this one |
| PlayMachine.ChainsEnd | supabase/functions/play-billing-verify/index.ts:142-148 | if Play's links have no cycle, every replacement chain is finite, repeats nothing and ends in an unreplaced token |
| PlayMachine.StaleReadAppliesReplaced | supabase/functions/play-billing-verify/index.ts:119-158 | two overlapping notifications can apply a token after it was replaced |
| PlayStale.ReplacedSilentExactlyWhen | supabase/functions/play-billing-verify/index.ts:139-158 | once a token is marked as replaced, no continuation applies it again if and only if no request in flight read it before the mark and would apply it |
| PlayRebind.ReclaimedExactlyWhenUntagged | supabase/functions/play-billing-verify/index.ts:195-211 | over all interleavings with failing reads, a bound token keeps its business if and only if it has an account tag |
| PlayRebind.ReliableRunsKeepBusiness | supabase/functions/play-billing-verify/index.ts:195-211 | with no failing read a bound token keeps its business in every interleaving, unless a request looked it up before it was bound |
| PlayRebind.KeepsBusinessExactlyWhen | supabase/functions/play-billing-verify/index.ts:195-217 | with no failing read a bound token keeps its business in every interleaving if and only if no request in flight looked too early and would be let through for another business |
| PlayRebind.OverlappingCallsRebind | supabase/functions/play-billing-verify/index.ts:195-217 | two overlapping first calls for an untagged token, nothing failing, bind it to one business and then to the other |
| PlayParsing.PickIsChoice | supabase/functions/play-billing-verify/play.ts:56-70 | the item picked is the latest deferred holder, else the latest owned, else the latest; nothing exactly when nothing is ours |
| PlayParsing.PickIgnoresOrder | supabase/functions/play-billing-verify/play.ts:58-69 | with distinct expiries every permutation of the items gives the same pick |
| PlayParsing.SecretMatches | supabase/functions/play-billing-verify/play.ts:211-218 | true exactly for equal, non-empty secrets |
| Reconcile.Reconciler.StillInUse | supabase/functions/reconcile-account-deletions/index.ts:85-102 | an answer is always the truth about both tables; it throws exactly when the first lookup fails, or the second does and the first found nothing |
| Reconcile.Reconciler.ProcessEvent | supabase/functions/reconcile-account-deletions/index.ts:104-175 | the new tables and the outcome for one event, every failure branch included |
| ReconcileEffects.ProcessedEvent | supabase/functions/reconcile-account-deletions/index.ts:104-175 | field by field: deleted exactly when the login was found orphaned and deleteUser did not fail, acknowledged exactly then or when there was nothing to delete, the note, the outcome, no other event and no other login touched |
| ReconcileEffects.VerdictExactly | supabase/functions/reconcile-account-deletions/index.ts:113-173 | which of the five updates is written in which case |
| ReconcileEffects.AlreadyResolved | supabase/functions/reconcile-account-deletions/index.ts:108-111 | an event that is deleted or acknowledged is left alone |
| Reconcile.Reconciler.ReconcileBatch | supabase/functions/reconcile-account-deletions/index.ts:222-244 | the batch loop processes the oldest pending events up to the limit, in order, with one result each |
| ReconcileEffects.BatchIsOldest | supabase/functions/reconcile-account-deletions/index.ts:220-228 | a batch is at most 50 events, neither deleted nor acknowledged, in order, and a pending event is left out only behind 50 taken ones |
| ReconcileEffects.BatchReports | supabase/functions/reconcile-account-deletions/index.ts:231-240 | one result per event, in order, with the outcome it would have had on its own |
| Reconcile.BatchLeaves | supabase/functions/reconcile-account-deletions/index.ts:222-244 | what is pending after a batch: its failing events in their order, then those it did not reach |
| ReconcileMachine.AloneIsProcess | supabase/functions/reconcile-account-deletions/index.ts:104-175 | a worker nobody interrupts does what processing the event says |
| ReconcileMachine.DeletedMeansGone | supabase/functions/reconcile-account-deletions/index.ts:42-46 | with any workers, stale snapshots and lost updates: auth_user_deleted means the login is gone, and no resolution is ever taken back |
| ReconcileMachine.NoReferencedDelete | supabase/functions/reconcile-account-deletions/index.ts:126-152 | if references only disappear while a login is being checked, deleteUser is never called on a referenced login |
| ReconcileMachine.DeleteCallOutcome | supabase/functions/reconcile-account-deletions/index.ts:126-152 | whatever shops and other workers do before and between a worker's three calls: deleteUser is called unless a lookup failed or found a reference, and the login is referenced then iff a business was added and kept since the first lookup or a user since the second |
| ReconcileMachine.DeletedWhileReferencedExactlyWhen | supabase/functions/reconcile-account-deletions/index.ts:26-29 | the same for a login without references at the start, as a condition on the three sequences of actions alone |
| ReconcileProgress.EventResolvedInTime | supabase/functions/reconcile-account-deletions/index.ts:222-244 | in the tables: with f < 50 failing and g other pending events older than it, an event is resolved once the runs exceed g / (50 - f), whatever arrives |
| ReconcileProgress.EventNeverPicked | supabase/functions/reconcile-account-deletions/index.ts:222-228 | in the tables: behind 50 or more failing older events an event is in no batch and never resolved, whatever arrives |
| ReconcileProgress.EventResolvedExactlyWhen | supabase/functions/reconcile-account-deletions/index.ts:222-244 | in the tables, whatever answers and arrivals: an event that does not fail is resolved after some number of runs iff fewer than 50 failing ones are older, and otherwise by no runs at all |
| ReconcileProgress.BatchRunsResolve | supabase/functions/reconcile-account-deletions/index.ts:222-244 | with f < 50 of n pending events failing, ceil((n - f) / (50 - f)) batch runs resolve all others in the tables, whatever arrives |
| UsbWrite.ChunkSizeFor | android/app/src/main/kotlin/com/reebaplus/pos/UsbPrinterPlugin.kt:273-276 | a positive multiple of the packet within one packet below 16 KB, or one oversized packet |
| UsbWrite.Write | android/app/src/main/kotlin/com/reebaplus/pos/UsbPrinterPlugin.kt:221-254 | what was accepted is a prefix; true exactly when the gates are open and it is everything; behind a closed gate nothing is offered; it ends early only on a transfer that accepts nothing; always released and closed |
| UsbWrite.Send | android/app/src/main/kotlin/com/reebaplus/pos/UsbPrinterPlugin.kt:233-247 | the loop ends, with everything accepted or after a transfer that accepted nothing, and the transfers follow each other without gap or overlap |
| UsbWrite.OfferNext | android/app/src/main/kotlin/com/reebaplus/pos/UsbPrinterPlugin.kt:235-247 | each transfer starts where the accepted bytes end and offers a whole chunk or all that is left; a short one loses nothing |
| UsbWrite.FullStaysAligned | android/app/src/main/kotlin/com/reebaplus/pos/UsbPrinterPlugin.kt:233-247 | while transfers are full they end on packet boundaries, but for the one that completes the bytes |
| Gtin.CheckDigit | test/fixtures/gen_gtin_vectors.py:13-17 | the loop over the reversed body computes the digit that, with three times every second digit from the right and once the others, makes a multiple of ten |
| Gtin.ValidByRule | test/fixtures/gen_gtin_vectors.py:13-21 | a code is valid iff its last digit and every second one before it, plus three times the others, make a multiple of ten |
| Gtin.ValidIffMultiple | test/fixtures/gen_gtin_vectors.py:13-21 | a code is valid iff its whole weighted sum is a multiple of ten |
| Gtin.GValidBadInvalid | test/fixtures/gen_gtin_vectors.py:20-26 | g always builds a valid code, bad never does: it ends in the next digit |
| Gtin.SingleErrorDetected | test/fixtures/gen_gtin_vectors.py:13-21 | changing any one digit of a valid code is detected |
| Gtin.AdjacentSwapDetected | test/fixtures/gen_gtin_vectors.py:13-21 | swapping neighbours goes unnoticed iff the digits are equal or differ by 5 |
| Gtin.PadKeepsValidity | test/fixtures/gen_gtin_vectors.py:29-32 | the GTIN-14 form has 14 digits and is valid iff the code is |
| Gtin.PadExactly | test/fixtures/gen_gtin_vectors.py:29-32 | exactly 8, 12, 13 or 14 ASCII digits have a GTIN-14 form: zeros, then the digits of the code |
| Gtin.PadMeansSameNumber | test/fixtures/gen_gtin_vectors.py:103-105 | two codes share a GTIN-14 form iff they differ by zeros in front |
| EscapeHtml.EscapeIsSimultaneous | supabase/functions/_shared/email_templates.ts:7-13 | the four replacements in a row are one substitution of every character |
| EscapeHtml.EscapedCharacters | supabase/functions/_shared/email_templates.ts:7-13 | what each of the four characters becomes, and that no other one changes |
| EscapeHtml.EscapedIsSafe | supabase/functions/_shared/email_templates.ts:7-13 | no raw angle bracket or quote is left and every ampersand begins one of the four entities |
| EscapeHtml.UnescapeEscape | supabase/functions/_shared/email_templates.ts:7-13 | unescaping gives the input back |
| EscapeHtml.EscapeInjective | supabase/functions/_shared/email_templates.ts:7-13 | different strings escape differently |

## Left out

- ShareRaces.RowsAgreeAlways: assumes no blocked object without a row at the start and that hashes are blocked only at safe moments; that both are needed is StoreAgreesExactlyWhen and BlockSafeExactlyWhen, where every photo type has two rival photos.
- ShareBlocked.BlockedNeverShared: speaks of what is blocked at the start; for later blocks see BlockedFromNowOnExactlyWhen. What a takedown does to rows already there is not part of this model.
- PlayRebind.KeepsBusinessExactlyWhen: assumes no notification in flight that found the token unknown; what such a one does depends on who gets the linked token meanwhile.
- PlaySwitch.SwitchKeepsPlan: before the takeover no app call binds an untagged new token to a stranger's business.
- ReconcileMachine.DeletedMeansGone: takes a "not found" answer of the Admin API to mean the login is gone; the source also accepts any message that contains those words.
- UsbWrite.Send: the driver never reports more bytes than it was given.
- Gtin.CheckDigit: works on digits; what Python does with other characters is only modelled in Pad.
- PlayParsing.PickIsChoice: expiries are parsed dates; a missing or unreadable one makes the source's comparator return NaN.
- apply_play_purchase is an entry in a log; its SQL, and with it plans, grants and billing_issue, is not part of this model.
- The acknowledge call to Google, order ids, raw bodies and timestamps of a purchase row: no decision reads them.
- The base plan check, state normalisation and notification decoding: one-branch facts about JSON.
- A port call or database call that fails is a run or handler that dies before or after it; the two unchecked lookups of the billing handlers are modelled as failing.
- Takedowns and cascades that delete photo rows, purchase rows or deletion events: rows are permanent here.
- How candidates are selected and ordered (SQL), the factory-barcode rule, HTTP, secrets, CORS, OAuth, push and e-mail delivery.
- USB permission, device lookup and enumeration: foreign calls.
- The texts of recorded error messages: only which one is written.
