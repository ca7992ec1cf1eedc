# mayfly-agent: a verified model of CA-bundle synchronisation

The mayfly agent keeps a host's `TrustedUserCAKeys` file in step with a signed bundle of SSH
certificate-authority keys that a server publishes. The network is hostile, the privileged part of
the work is done by a separate helper process, and the agent's own state lives in several small
files that are written one after the other. This project models that protocol in Dafny and proves
what it keeps on every run: which bundles are trusted, what the state files may say, what is
acknowledged, what happens when a write fails or the process dies half way, and how the loops
around it (polling, sleeping, retrying, enrolling) behave.

`dafny verify dfyconfig.toml` checks the whole project.

## How it is put together

| file | models |
|---|---|
| `Text.dfy` | strings as Rust sees them: white space, trimming, tokens, lines, decimals |
| `Json.dfy`, `Canonical.dfy` | JSON string escaping, the two canonical encodings, and readers for them written from section 7 of RFC 8259 |
| `KeyOrder.dfy`, `Bundle.dfy`, `Rejection.dfy` | key ordering and duplicate detection; authentication and validation of a response; why one is rejected |
| `TrustedCa.dfy`, `Rendering.dfy` | the `TrustedUserCAKeys` parser, and the body rendered from a bundle |
| `Storage.dfy` | state files and the atomic write, step by step |
| `CaSync.dfy`, `SyncService.dfy` | one synchronisation pass as a plan of effects, and the service that performs it |
| `SyncReach.dfy`, `SyncSafety.dfy`, `SyncConsistency.dfy`, `SyncReports.dfy` | everywhere a pass can leave the world, what every such point keeps, and exactly when a pass reports |
| `SyncOutcomes.dfy` | exactly what a pass returns, what a successful one leaves, and when a key reaches the pin file |
| `Daemon.dfy` | start-up, passes, heartbeats, pinning, crashes and restarts in any order |
| `Acknowledgements.dfy`, `PinTrust.dfy` | what the server is told over whole runs, and when one signer is behind everything |
| `Scenario.dfy`, `ToyServer.dfy`, `TornPersist.dfy` | what passes do when everything works but one write, a concrete server, and two things a torn persist makes possible |
| `Polling.dfy`, `Backoff.dfy` | scheduler, interruptible sleeper, poll loop; backoff delays and the retry loop |
| `Enrollment.dfy` | key files, machine record, captured response, and the pin that follows |
| `Frames.dfy`, `Signing.dfy` | helper socket framing and token comparison; the request canonical string |

**A pass is a prefix of a plan.** Every effect of a pass that reports failure ends it. So a pass is
a planned list of effects (file writes, one helper call, one acknowledgement), and what is performed
is the prefix up to the first failure; a crash leaves a shorter prefix. A write that reports failure
may have left the old or the new contents, because the rename can succeed and the directory sync
then fail. All per-pass theorems quantify over the prefix length, so they cover completion, failure
and crashes alike. `SyncService` is the imperative program; its `Synchronize` is proved to perform
exactly the planned effects. `SyncReach.PassReaches` abstracts the list into a relation between
worlds, and the safety theorems follow from that.

**Foreign code is a parameter.** SHA-256, Ed25519 verification, `ssh_key` parsing and RFC 3339
parsing are the function fields of `Bundle.Crypto`, so every theorem holds for any of them. Where a
theorem needs something of them it says so: `HexDigests` (a digest prints as 64 graphic characters),
`KeyLines` (an accepted Ed25519 line starts with `ssh-ed25519` and a base64 blob), `NoCollision` (two
particular documents do not collide). Server answers, helper replies, clock readings, random draws,
read and write failures are arbitrary inputs.

## What turned out to be false

* `Unchanged` does not always mean that the host runs the offered bundle. After an apply whose
  generation write was lost, offering the previous bundle again is answered `Unchanged` while the
  host runs the newer one (`TornPersist.UnchangedCanMislead`, with a concrete instance in
  `TornPersistHappens`). It is truthful if and only if the records describe the host's bundle before
  the pass (`SyncSafety.UnchangedTruthfulIff`), which holds throughout runs without a torn persist.
* The recorded generation never falls, but the generation the host runs can
  (`TornPersist.HostCanRegress`). In a pass it falls if and only if the offered bundle is not behind the
  recorded generation, is not the one on record, is below what the host runs, and the pass gets as far as
  a helper call that takes effect (`SyncSafety.HostRegressesIff`); in particular only when the record was
  already behind the host (`SyncSafety.HostRegressesOnlyIfTorn`).
* The log line of a failed acknowledgement promises a retry on the next pass
  (src/protocol/ca_sync.rs:454-458). Whatever became of a report, the next pass posts one on the same
  generation and fingerprint if and only if the first was about a rollback and the next pass is offered
  that generation and fingerprint again, records the contact, gets a rollback or an apply with every later
  write going through, and can sign the report (`SyncReports.ReportRetriedIff`, from the exact condition
  for any report, `SyncReports.ReportedIff`). So the report of a rollback comes again
  (`Acknowledgements.RollbackIsReportedAgain`, with a concrete instance), and that of an update does not
  (`SyncReports.LostReportIsNotRetried`). Later in the run a recorded bundle is reported again only if in
  between the same generation was on record with another fingerprint
  (`Acknowledgements.ReportedAgainOnlyIfReplaced`), and then it can be
  (`Acknowledgements.ReportCanComeAgain`, with a concrete instance). The model follows the code.
* A pin file that exists but is blank is treated as no pin when it is loaded and as a pin when it
  would be written, so passes never replace it (`Daemon.BlankPinIsNeverReplaced`; only pinning at enrollment does) and
  take bundles of any signer (`PinTrust.BlankPinTrustsAnyone`). Over all runs the bodies sent share one signer if and only if
  the pin file is neither absent nor blank (`PinTrust.OneSignerIff`); a file that is not text is safe,
  because no pass gets past loading it.
* `ensure_enrolled` is described as idempotent across restarts (src/service/daemon.rs:262-267), but a process
  that dies after writing the machine record and before writing the pin never writes it: the next one finds the
  record and pins nothing (`Enrollment.PinLostForGood`). The pin can still come after a restart if and only
  if there is no record yet (`Enrollment.PinStillComesIff`); otherwise the first pass that takes an offer pins
  its signer (`SyncOutcomes.FirstUsePins`).
* Backoff delays with a multiplier of at least one never shrink over n attempts if and only if n is at
  most 2^31, or the multiplier is one, or the initial delay is zero, or
  `initial / multiplier^(2^31)` is no less than the maximum (`Backoff.DelaysNeverShrinkIff`); otherwise
  the exponent wraps after attempt 2^31 and the delay drops (`Backoff.WrappedDelayShrinks`).
* A request's canonical string determines it if and only if nothing after the timestamp contains a
  newline and no line of the machine id but its first could be a timestamp (`Signing.UniqueIff`); for a
  machine id on one line, as every enrolled machine's is, if and only if the later fields contain no newline
  (`Signing.UniqueOnOneLine`, `Enrollment.EnrolledRequestsUnique`).
* The documented interval of a jittered delay, `[base, base + base * ratio)`, contains every delay if and
  only if base and ratio are positive (`Polling.DelayBelowIff`); otherwise the delay is the base itself.

## Model

| member | source | states |
|---|---|---|
| `Json.JsonEscapeInto` | src/protocol/ca_bundle.rs:468-482 | the character loop appends exactly the escaped text to the buffer |
| `Json.DecodeEscaped` | src/protocol/ca_bundle.rs:468-482 | a decoder written from RFC 8259 inverts the escaping of every string and stops at the closing quote, whatever follows it |
| `Json.EscapeHasNoControl` | src/protocol/ca_bundle.rs:468-482 | no control character is ever emitted raw |
| `Json.EscapeIsShortest` | src/protocol/ca_bundle.rs:468-482 | each character is written as the shortest text that reads as it, and where two are as short as the one in lower case |
| `KeyOrder.SortBySorted` | src/protocol/ca_bundle.rs:226-242 | the sort leaves no key before one whose field is a prefix of its own or is lower at the first character in which the two differ |
| `KeyOrder.LexLeIff` | src/protocol/ca_bundle.rs:226-242 | the comparison of two fields puts first the one that is a prefix of the other or is lower at the first character in which they differ |
| `KeyOrder.SortByPermutes` | src/protocol/ca_bundle.rs:226-242 | the sort is a permutation |
| `KeyOrder.SortByStable` | src/protocol/ca_bundle.rs:226-242 | keys with equal fields keep their order |
| `KeyOrder.SortByPermutation` | src/protocol/ca_bundle.rs:406-407 | lists of distinct keys that permute each other sort to one list |
| `KeyOrder.AdjacentDuplicate` | src/protocol/ca_bundle.rs:228-239 | the scan over neighbouring pairs finds an equal pair iff there is one |
| `KeyOrder.SortThenScan` | src/protocol/ca_bundle.rs:226-239 | sorting and scanning neighbours finds a duplicate iff there is one anywhere in the list as received |
| `Canonical.AppendKeysArray` | src/protocol/ca_bundle.rs:452-465 | the array loop appends exactly the items in order with their separators and the closing bracket |
| `Canonical.CanonicalJson` | src/protocol/ca_bundle.rs:405-416 | the buffer program prints the fingerprint document |
| `Canonical.CanonicalSigningPayload` | src/protocol/ca_bundle.rs:423-449 | the buffer program prints the signing payload |
| `Canonical.ReadFingerprintDocumentPrinted` | src/protocol/ca_bundle.rs:405-416 | an independent reader recovers the generation and the sorted keys from the fingerprint document |
| `Canonical.ReadSigningPayloadPrinted` | src/protocol/ca_bundle.rs:423-449 | an independent reader recovers every field of the envelope from the signing payload |
| `Canonical.SigningPayloadInjective` | src/protocol/ca_bundle.rs:418-449 | equal payloads have equal version, times, fingerprint, generation and sorted keys, hence the same keys |
| `Canonical.FingerprintDocumentInjective` | src/protocol/ca_bundle.rs:403-416 | equal fingerprint documents have one generation and the same keys |
| `Bundle.AcceptedIff` | src/protocol/ca_bundle.rs:162-277 | a response is accepted if and only if every rule, written out, holds of it: version, algorithm, valid and expected signing key, a signature over a text that reads as version 1 and the times, fingerprint, generation and sorted keys received, generation, key count, valid and distinct keys, a fingerprint that is the digest of a text that reads as generation and sorted keys, and a window that contains now; the order of the checks and of the keys plays no part |
| `Rejection.FirstFailingRule` | src/protocol/ca_bundle.rs:158-277 | a response is rejected iff some rule fails of it, and the error names the first rule that does in the order of the checks |
| `Rejection.AuthenticatedFirst` | src/protocol/ca_bundle.rs:193-209 | an error about the content (generation, keys, fingerprint, times) is returned only for a response whose signature covers its fields and verifies under the expected material |
| `Bundle.ScanKeys` | src/protocol/ca_bundle.rs:215-239 | the loops over the keys reject exactly by the declarative rules: count, validity of each key, no duplicate id or public key anywhere |
| `Bundle.RunChecks` | src/protocol/ca_bundle.rs:211-277 | the whole chain of checks returns the first failing rule's error or the bundle |
| `Bundle.Validate` | src/protocol/ca_bundle.rs:162-277 | `from_response` on buffers, sorts and scans decides as the declarative specification does, which `AcceptedIff` and `SignedFields` tie to the fields received |
| `Bundle.AcceptedBundle` | src/protocol/ca_bundle.rs:126-143 | an accepted bundle has strictly ordered ids, distinct public keys, only valid keys, is a permutation of what was received, carries the recomputed and advertised fingerprint, was signed under its signing key, matches the expected key's material, and has the window of the signed time stamps, which contains now |
| `Bundle.SignedFields` | src/protocol/ca_bundle.rs:197-209 | the signature of an accepted response is over a text that reads as version 1, the response's creation time, its expiry time, and the bundle's fingerprint, generation and keys, in that order; the fingerprint is the digest of a text that reads as the bundle's generation and keys |
| `Bundle.PermutedKeysAccepted` | src/protocol/ca_bundle.rs:201-247 | every permutation of the keys of an accepted response is accepted as the identical bundle |
| `Bundle.SignatureBindsBundle` | src/protocol/ca_bundle.rs:197-209 | two accepted responses whose fields one signed text reads as are one bundle up to the spelling of the signing key, whatever key each was checked against |
| `Bundle.FingerprintBindsKeys` | src/protocol/ca_bundle.rs:394-416 | without a digest collision one fingerprint means one generation and one key list |
| `TrustedCa.IsValidBase64` | src/ssh/trusted_ca.rs:154-178 | the padding count and character loop accept exactly section 4 of RFC 4648: full quanta, at most two padding characters, at the end |
| `TrustedCa.Base64Iff` | src/ssh/trusted_ca.rs:154-178 | the accepted texts are those of full quanta over the 64 letters, digits and signs with at most two padding characters, written out |
| `TrustedCa.ParseFile` | src/ssh/trusted_ca.rs:111-122 | the line loop returns the keys in order or the first error |
| `TrustedCa.ParseKeyLine` | src/ssh/trusted_ca.rs:64-150 | a normalised line parses to its algorithm, blob and comment and is never skipped |
| `TrustedCa.ParsedIff` | src/ssh/trusted_ca.rs:64-98 | each verdict on a key line holds exactly of the lines it names, by control characters, number of fields, algorithm and blob; an accepted line yields its first two fields |
| `TrustedCa.CommentIs` | src/ssh/trusted_ca.rs:141-150 | an accepted line is, up to blanks around it, its algorithm, blanks, its blob, and nothing or blanks and its trimmed comment |
| `TrustedCa.ParsedFileIff` | src/ssh/trusted_ca.rs:111-122 | a file is accepted iff each of its lines is skipped or accepted, and otherwise the error is that of the first other line |
| `TrustedCa.ParsedKeys` | src/ssh/trusted_ca.rs:111-122 | the keys of an accepted file are those of its lines that are neither blank nor start with `#`, one each and in order |
| `Rendering.RenderTrustedUserCaKeys` | src/protocol/ca_bundle.rs:321-332 | the buffer program prints four header lines and one line per key |
| `Rendering.RenderedLines` | src/protocol/ca_bundle.rs:321-377 | the lines of a valid bundle's body are the four header lines, naming version, generation and fingerprint, and for each key in order its algorithm, its blob and `mayfly:<key_id>` |
| `Rendering.ParseRendered` | src/protocol/ca_bundle.rs:314-332 | the body of any valid bundle parses, to exactly its keys in order with the same algorithm and blob and the comment `mayfly:<key_id>` |
| `Rendering.RenderDetermines` | src/protocol/ca_bundle.rs:321-326 | equal bodies have equal generation and fingerprint |
| `Storage.Directory.SecureWrite` | src/security.rs:57-90 | after every step a reader sees the old entry or the whole new one with its final mode; failure after the rename leaves the new one |
| `SyncService.CaSyncService.WriteFile` | src/protocol/ca_sync.rs:537-564 | one state file is replaced, or not, as the write ended; the log and world agree |
| `SyncService.CaSyncService.AskHelperToApply` | src/protocol/ca_sync.rs:396-411 | the body goes to the helper; only the host and the call log change |
| `SyncService.CaSyncService.Acknowledge` | src/protocol/ca_sync.rs:450-479 | at most one report is posted and a failure to do so is swallowed |
| `SyncSafety.LoadReadsBack` | src/protocol/ca_sync.rs:516-535 | what a pass recorded is what the next one loads, whenever the files can be read: the same generation and fingerprint and the same key material |
| `SyncService.CaSyncService.PersistPinIfNeeded` | src/protocol/ca_sync.rs:424-437 | a pin is written only without an operator pin and without any pin file, and what is written, where and when is what `SyncOutcomes.PinWrittenIff` gives |
| `SyncService.CaSyncService.PersistAfterApply` | src/protocol/ca_sync.rs:440-446 | generation, fingerprint, pin and stamp are written in that order up to the first failure |
| `SyncService.CaSyncService.HandleBundle` | src/protocol/ca_sync.rs:329-385 | downgrade check, unchanged check, re-parse, apply and record perform the planned effects |
| `SyncService.CaSyncService.HandleResponse` | src/protocol/ca_sync.rs:308-327 | 304, other statuses, unparsable and invalid bodies end as planned |
| `SyncService.CaSyncService.Synchronize` | src/protocol/ca_sync.rs:301-386 | the program performs exactly the planned effects, ends in the planned world and returns the planned result |
| `SyncOutcomes.StartsIff` | src/protocol/ca_sync.rs:301-306 | a pass does nothing at all, and fails, iff its records cannot be used, its request cannot be signed, or the server does not answer |
| `SyncOutcomes.OfferedIff` | src/protocol/ca_sync.rs:308-327 | a response is taken up as an offer iff it is a 2xx answer with a bundle that is accepted under the trust anchor |
| `SyncOutcomes.ResultIs` | src/protocol/ca_sync.rs:301-386 | what a pass returns in every case, from the records, the answer, the helper's reply and which writes go through: a 304 gives `NotModified` with the recorded generation, an answer not taken up its reason, an offer behind the record `GenerationRegressed`, one on record `Unchanged`, any other what the helper and the writes make of it |
| `SyncOutcomes.SuccessLeaves` | src/protocol/ca_sync.rs:301-446 | the whole world a successful pass leaves: both time stamps, for an offer its signing key in a pin file that was missing and not overridden, after an update both records, the host on the body, one call and the signed report, and nothing else changed |
| `SyncOutcomes.PinWrittenIff` | src/protocol/ca_sync.rs:416-437 | without operator pin and pin file, every pass, failed or not, leaves the offer's signing key in the pin file iff the offer is on record or was applied and recorded and the pass gets to a pin write that takes effect, and otherwise leaves no pin file |
| `SyncOutcomes.FirstUsePins` | src/protocol/ca_sync.rs:416-437 | the first pass that succeeds on an offer pins its key; the next pass expects that key's material and any offer it takes up is signed under it |
| `SyncReach.PassReaches` | src/protocol/ca_sync.rs:301-446 | every point where a pass can end, fail or be cut off is: nothing touched; helper asked and host unchanged; or host on the offered bundle with the two records written in order; with the pin kept and acknowledgements only where they are true |
| `SyncSafety.SuccessMeans` | src/protocol/ca_sync.rs:184-207 | each result says what was done: `Updated` means taken by the host and both records written, `acknowledged` that the report was posted and answered with a 2xx status; `Unchanged` and `NotModified` mean host, records and reports untouched and the returned generation is the recorded one |
| `SyncSafety.PassIsAuthentic` | src/protocol/ca_sync.rs:323-327 | at every point the host runs the rendering of a valid bundle, and a body sent to the helper comes from a response whose signature verified under the expected key's material |
| `SyncSafety.ReparseNeverRejects` | src/protocol/ca_sync.rs:396-399 | the defensive parse before an apply never rejects |
| `SyncSafety.PassKeepsGeneration` | src/protocol/ca_sync.rs:329-341 | at every point, whatever fails and even if a failed helper call changed the host, the recorded generation has not fallen and does not exceed the host's |
| `SyncSafety.HostRegressesIff` | src/protocol/ca_sync.rs:329-356 | after any number of effects of a pass the host's generation has fallen iff the offer is not behind the record, not on record, below the host's generation, and the pass got to a helper call that takes effect |
| `SyncSafety.PassRegressesIff` | src/protocol/ca_sync.rs:329-356 | the same for a whole pass whose contact stamp is written and whose helper call takes effect: only the offer, the record and the host decide |
| `SyncSafety.HostRegressesOnlyIfTorn` | src/protocol/ca_sync.rs:329-341 | a pass lowers the host's generation only if the record was behind it, for any crypto |
| `SyncSafety.PassKeepsPin` | src/protocol/ca_sync.rs:416-437 | an existing pin file or operator pin is never changed; a new pin is the offered bundle's signing key |
| `SyncSafety.PinReadsBack` | src/protocol/ca_sync.rs:603-618 | a pinned key is read back with the same algorithm and blob |
| `SyncSafety.PassAcknowledges` | src/protocol/ca_sync.rs:358-385 | at most one helper call and one acknowledgement; `applied` only with that generation and fingerprint on disk and on the host; `rollback` only with records, pin and host as loaded; none without an apply outcome |
| `SyncSafety.OnlyUpdatesAcknowledge` | src/protocol/ca_sync.rs:308-356 | a pass that succeeds without updating posts no report |
| `SyncSafety.RecordedIsNotReported` | src/protocol/ca_sync.rs:343-346 | while the records name a bundle, no pass posts a report on it at any point |
| `SyncReports.ReportedIff` | src/protocol/ca_sync.rs:301-411 | after any number of effects of a pass one report on the offer is posted iff the pass is over, the offer was fresh, the contact stamp was written, the helper rolled back or applied with every later write going through, and the report could be signed; otherwise none |
| `SyncReports.ReportRetriedIff` | src/protocol/ca_sync.rs:358-385 | after every pass that called `acknowledge`, a report on the same generation and fingerprint is posted by the next pass iff the first was a rollback and the next is offered the same, gets through to its own report and can sign it |
| `SyncReports.LostReportIsNotRetried` | src/protocol/ca_sync.rs:448-462 | after every pass that updates, no report on the same generation and fingerprint is posted at any point of the next pass |
| `SyncSafety.UnchangedTruthfulIff` | src/protocol/ca_sync.rs:343-356 | for every pass that returns `Unchanged`, the host runs the offered bundle iff the records described the host before the pass |
| `SyncSafety.SelfHeals` | src/protocol/ca_sync.rs:343-373 | from any state, a successful pass that validates the bundle the host runs, or updates, leaves records and host in agreement |
| `SyncSafety.TornPersistHeals` | src/protocol/ca_sync.rs:440-446 | a pass cut off or failed anywhere after the host took a bundle is healed by the next successful pass that validates the same bundle |
| `SyncConsistency.PassKeepsConsistent` | src/protocol/ca_sync.rs:440-446 | a pass that is not torn keeps records and host on one authenticated bundle |
| `SyncConsistency.UnchangedIsTruthful` | src/protocol/ca_sync.rs:343-356 | from a consistent state `Unchanged` is returned only for the bundle the host runs |
| `TornPersist.UnchangedCanMislead` | src/protocol/ca_sync.rs:440-442 | for any two accepted bundles of one signer, losing the second's generation write lets the first be reported `Unchanged` while the host runs the second |
| `TornPersist.HostCanRegress` | src/protocol/ca_sync.rs:329-341 | for any three, the host can be taken back to the middle one |
| `TornPersist.TornPersistHappens` | src/protocol/ca_sync.rs:440-442 | both happen on a concrete run from empty state |
| `Daemon.GenerationNeverFalls` | src/protocol/ca_sync.rs:329-341 | over every run with crashes, restarts and failed writes the recorded generation never falls and never exceeds the host's |
| `Daemon.HostStaysAuthentic` | src/protocol/ca_sync.rs:323-327 | over every run the host only runs renderings of validated bundles |
| `Daemon.AnchorNeverChanges` | src/service/runtime_state.rs:132-155 | once a key is pinned (or the operator's is set) no interleaving of passes, enrollment pinning and restarts changes it, and every later body is signed under that algorithm and blob |
| `Daemon.PinStaysSane` | src/service/runtime_state.rs:143-155 | a pin file that starts absent or non-blank stays so |
| `Daemon.PinnedAtEnrollmentIff` | src/service/runtime_state.rs:143-155 | a valid key offered at enrollment is trimmed into the pin file and becomes the anchor iff there is no operator pin, the pin file is readable and missing or blank, and the write takes effect; otherwise nothing changes |
| `Daemon.FirstPinIsForever` | src/protocol/ca_sync.rs:422-437 | from such a start the first key that reaches the pin file is the anchor of every later body |
| `Daemon.BlankPinIsNeverReplaced` | src/protocol/ca_sync.rs:424-430 | passes never replace a blank pin file and verify against no pin |
| `PinTrust.BlankPinTrustsAnyone` | src/protocol/ca_sync.rs:424-430 | from a world with a blank pin file, whatever bundle is on record, two passes in which everything works take newer bundles of two signers, and the file is still blank |
| `PinTrust.OneSignerIff` | src/protocol/ca_sync.rs:416-437 | over all runs without an operator pin, every body sent comes from one signer iff the pin file the run starts with is neither absent nor blank |
| `PinTrust.FirstUseIsForever` | src/protocol/ca_sync.rs:416-437 | once a pass has succeeded on an offer without operator pin and pin file, every body sent on any run from there is signed under that offer's key |
| `PinTrust.UnreadablePinStops` | src/protocol/ca_sync.rs:603-618 | with a pin file that is not text no body is ever sent and the file is never replaced |
| `Daemon.StatusIsDiskGeneration` | src/service/daemon.rs:418-448 | after every successful pass the status generation equals the recorded one |
| `Daemon.ReportsNeverFall` | src/service/daemon.rs:377-448 | over every run, restarts included, the generations reported in heartbeats never fall and never exceed the recorded one, and no process has a status below what was reported |
| `Daemon.BootReadsRecord` | src/service/runtime_state.rs:122-130 | a start succeeds iff the generation file is usable, and then the status is the recorded generation |
| `Daemon.ReportsAfterBoot` | src/service/daemon.rs:141 | the first heartbeat after a start reports the generation then on record, and no later one, of this process or the next, reports less than what was on record at any point before the start |
| `Daemon.Process.Start` | src/service/daemon.rs:141 | a process starts iff the generation file is usable, with the recorded generation as its status |
| `Daemon.CleanRunsStayConsistent` | src/protocol/ca_sync.rs:440-446 | over every run without a torn persist, records and host describe one authenticated bundle at every step |
| `Daemon.UnchangedInCleanRuns` | src/protocol/ca_sync.rs:343-356 | on such a run `Unchanged` is returned only when the host's body is the rendering of the offered bundle |
| `Daemon.TornPersistHealsLater` | src/protocol/ca_sync.rs:440-446 | a torn persist is healed by the first successful pass that validates the bundle the host runs, whatever failed passes, repeated tears, heartbeats, crashes and restarts come in between |
| `Acknowledgements.ReportedAgainOnlyIfReplaced` | src/protocol/ca_sync.rs:343-385 | over every run, a report on a recorded bundle is posted later only if in between its generation was on record with another fingerprint |
| `Acknowledgements.ReportCanComeAgain` | src/protocol/ca_sync.rs:343-385 | for any two bundles of one generation and signer, offering one, the other and the first again reports the first twice |
| `Acknowledgements.ReportComesAgain` | src/protocol/ca_sync.rs:343-385 | that happens on a concrete run from empty state |
| `Acknowledgements.RollbackIsReportedAgain` | src/protocol/ca_sync.rs:375-384 | from any state where the offer is not yet on record, two passes alike in which the helper rolls back and the report can be signed post the same report twice |
| `Acknowledgements.RollbackComesAgain` | src/protocol/ca_sync.rs:375-384 | that happens on a concrete run from empty state |
| `Acknowledgements.AppliedReportsAreTrue` | src/protocol/ca_sync.rs:358-373 | over every run, each `applied` report was posted by an event right after which the host ran the bundle it names, with that bundle on record and signed under the anchor the run started with |
| `Acknowledgements.AppliedReportsNeverFall` | src/protocol/ca_sync.rs:329-373 | over every run the generations of `applied` reports never fall |
| `Daemon.Process.RecordSync` | src/service/daemon.rs:418-448 | a pass and its generation as the new status is the model's sync step |
| `Daemon.Process.RecordHeartbeat` | src/service/daemon.rs:377-415 | the status generation is reported whether or not it is delivered |
| `Polling.NewInterval` | src/service/scheduler.rs:69-76 | a finite ratio becomes the nearest one in [0, 1], one that is not finite becomes 0 |
| `Polling.JitterIsDrawn` | src/service/scheduler.rs:79-86 | draw n of a million adds n millionths of base times ratio, in whole nanoseconds rounded down |
| `Polling.DelayBounds` | src/service/scheduler.rs:79-86 | a delay lies between the base and the base times one plus the ratio |
| `Polling.DelayBelowIff` | src/service/scheduler.rs:56-60 | a delay is below base + base * ratio iff base and ratio are positive |
| `Polling.Scheduler.TakeDue` | src/service/scheduler.rs:133-144 | the due actions are returned, heartbeat first, and rescheduled so that every history of starts stays on its cadence (never sooner than the base) and, taken on time, without a gap above the longest delay |
| `Polling.Sleep` | src/service/shutdown.rs:102-114 | never oversleeps, sleeps the whole duration if the flag never flips or is not seen, takes steps of at most the given size and at most one after the flag is set |
| `Polling.RunPolling` | src/service/scheduler.rs:174-208 | with the flag flipping between any two observations, or never, no sleep is longer than a step, at most one sleep, one heartbeat and one sync come after the flip, and no cadence starts sooner than its base after its last start; with an exact sleeper and instantaneous callbacks every cycle, from one check to the next, starts an action unless the flag is set in it, and no gap exceeds base times one plus the ratio |
| `Polling.StartIsKept` | src/service/scheduler.rs:110-124 | a new scheduler is due no sooner than one base and no later than one longest delay after its creation |
| `Polling.AtMostOncePerBase` | src/service/scheduler.rs:131-144 | within t of creation a cadence has started at most t / base times |
| `Backoff.CappedIsExponential` | src/service/backoff.rs:47-50 | for up to 2^31 attempts the delay before jitter is min(max, initial * multiplier^(i-1)) |
| `Backoff.FirstAndNext` | src/service/backoff.rs:47-50 | the first delay before jitter is the initial one, capped, and before the wrap each exponential is the one before it times the multiplier |
| `Backoff.WrappedIsExponential` | src/service/backoff.rs:47-50 | after attempt 2^31 the delay before jitter is min(max, initial / multiplier^(2^32 + 1 - i)) |
| `Backoff.DelaysGrow` | src/service/backoff.rs:47-50 | with a multiplier of at least one these delays never shrink |
| `Backoff.WrappedDelayShrinks` | src/service/backoff.rs:48 | attempt 2^31 + 1 waits less than attempt 2^31, unless all delays of the policy are the same |
| `Backoff.DelaysNeverShrinkIff` | src/service/backoff.rs:47-50 | with a multiplier of at least one, the delays of n attempts never shrink iff n is at most 2^31, the multiplier is one, the initial delay is zero, or initial / multiplier^(2^31) is no less than the maximum |
| `Backoff.JitterBounds` | src/service/backoff.rs:51-57 | jitter only lengthens a delay, by at most the jitter ratio |
| `Backoff.JitterIsDrawn` | src/service/backoff.rs:51-57 | draw n of a million adds n millionths of the jitter ratio times the delay, for every attempt, and nothing for a ratio that is not positive |
| `Backoff.Retry` | src/service/backoff.rs:84-105 | calls carry 1, 2, 3, ... (saturating), checks alternate with calls and sleeps, an n-th success has slept n-1 times, the result is the first success or the last error |
| `Backoff.RetryWithBackoff` | src/service/backoff.rs:72-105 | the same with the delays of a policy |
| `Backoff.SleepBounds` | src/service/backoff.rs:99-100 | the i-th sleep is the policy's delay for attempt i and draw i, and lies between the capped exponential and that plus its jitter |
| `Enrollment.RunsAreSound` | src/identity/enrollment.rs:406-505 | over every run of attempts and restarts with partial writes, key files match, the private key never changes once there, every request carried its public key, and a record has a validated response |
| `Enrollment.RunsFromNothing` | src/identity/enrollment.rs:332-339 | the same spelled out from no files at all |
| `Enrollment.PinComesWithRecord` | src/service/daemon.rs:301-336 | a pin written after the retry loop is the key of the validated response whose machine id is recorded, also when the record write failed after its rename and the retry loaded it |
| `Enrollment.NoDefectIff` | src/identity/enrollment.rs:173-208 | a response is valid iff its machine id is 1 to 128 letters, digits, hyphens, underscores and dots, both intervals are 1 to 86400, and its keys are Ed25519 lines without control characters |
| `Enrollment.DefectIs` | src/identity/enrollment.rs:173-208 | the reason a response is rejected for is what is wrong with it, and whatever is looked at earlier is right |
| `Enrollment.EnrolledRequestsUnique` | src/identity/enrollment.rs:179-188 | on every run from no files a recorded machine id is such an id, hence on one line, and a request signed in its name shares its canonical string with no other iff nothing after the timestamp contains a newline |
| `Enrollment.EnrollsIff` | src/identity/enrollment.rs:440-461 | `enroll` returns an id iff the machine has no record, the inputs are valid, there is or can be a key, the server answers 2xx with a valid response of that machine id, and the record is written |
| `Enrollment.ObtainedState` | src/identity/enrollment.rs:406-461 | what an attempt that obtains a valid response leaves in key files, record and captured response, and that it fails only by the record's write |
| `Enrollment.FailsFor` | src/identity/enrollment.rs:440-461 | a failed attempt fails for the reason it gives, and every step before that one went well |
| `Enrollment.FailureLeaves` | src/identity/enrollment.rs:440-461 | an attempt that fails without a valid response leaves the record as it was, no request but its own, and no captured response but the one it rejects |
| `Enrollment.EnrollmentService.LoadOrGenerateKeypair` | src/identity/enrollment.rs:480-505 | an existing key pair is left as it is, success returns the private key that is on disk, and a public key file keeps matching its private key however the writes end |
| `Enrollment.EnrollmentService.PostRequest` | src/identity/api_client.rs:130-148 | success captures exactly the response it returns, and anything else leaves the captured one alone |
| `Enrollment.EnrollmentService.PersistMachineIdentity` | src/identity/enrollment.rs:406-430 | the record changes only to that of a response without a defect, also when the write reports failure; success returns the recorded machine id |
| `Enrollment.EnrollSound` | src/identity/enrollment.rs:440-461 | one `enroll` keeps key files, requests and record hanging together, keeps the record tied to the captured response, never changes a private key, and succeeds only by leaving a record |
| `Enrollment.EnrollmentService.Enroll` | src/identity/enrollment.rs:440-461 | the program keeps the same: soundness, the captured response behind the record, the private key; success returns the recorded machine id of a machine that had no record |
| `Enrollment.RetriedIsRetry` | src/service/daemon.rs:301-321 | whatever calls and result the backoff loop can have had, the enrollment retry ends in the state after those calls with that result |
| `Enrollment.RecordedTurn` | src/service/daemon.rs:313-320 | a turn of the retry on a machine with a record changes nothing and returns the recorded id iff it can be loaded |
| `Enrollment.PinAfterIff` | src/service/daemon.rs:323-336 | a text is pinned after enrollment iff the captured response has a signing key, there is no operator pin, the pin file is readable and missing or blank, and the text is the trimmed key and a newline |
| `Enrollment.PinLostForGood` | src/service/daemon.rs:301-336 | a process that dies with the record written and the pin not yet loses that pin: no run of attempts and restarts from there changes anything or leaves a key to pin |
| `Enrollment.PinStillComesIff` | src/service/daemon.rs:262-336 | a machine that restarts before its pin is written can still pin the key of a valid response iff it has no record yet |
| `Enrollment.EnrollmentService.EnsureEnrolled` | src/service/daemon.rs:269-339 | success returns the recorded machine id; a pin that changed is the key of the validated response on record; an enrolled machine changes nothing and succeeds iff its identity loads; otherwise state, pin and result are those of the retry, with a failed pin write as the result |
| `Frames.ReadIffWritten` | src/ipc/protocol.rs:186-225 | a frame is read from a stream iff the stream starts with a written frame, and the rest is left |
| `Frames.FrameLayout` | src/ipc/protocol.rs:186-199 | a frame is the length of the body in four bytes, most significant first, and the body |
| `Frames.CutFrameFails` | src/ipc/protocol.rs:211-225 | any strict prefix of a written frame is an error, never a body |
| `Frames.ReadFailsIff` | src/ipc/protocol.rs:211-225 | a read is a protocol error iff the announced length exceeds one mebibyte, and unavailable iff length or body is cut off |
| `Frames.ReadBackAll` | src/ipc/protocol.rs:186-225 | reading back any sequence of written frames gives the bodies in order and consumes exactly their bytes |
| `Frames.Stream.WriteFrame` | src/ipc/protocol.rs:186-199 | an oversized body is refused before anything is written, any other is framed |
| `Frames.Stream.ReadFrame` | src/ipc/protocol.rs:211-225 | the length is checked before the body is read |
| `Frames.ConstantTimeEq` | src/ipc/protocol.rs:232-241 | the accumulated difference is zero iff the byte strings are equal |
| `Signing.CanonicalStringInjective` | src/protocol/signing.rs:47-58 | for fields on one line, equal canonical strings mean equal requests, for every signed timestamp and length |
| `Signing.SevenLines` | src/protocol/signing.rs:47-58 | for fields on one line the canonical string is seven lines: the domain, machine id, timestamp, nonce, method, path and body hash |
| `Signing.UniqueIff` | src/protocol/signing.rs:47-58 | a request shares its canonical string with no other iff nothing after the timestamp contains a newline and no line of the machine id but its first could be a timestamp |
| `Signing.UniqueOnOneLine` | src/protocol/signing.rs:47-58 | for a machine id on one line, iff nonce, method, path and body hash contain no newline |

## Left out

- Ed25519, SHA-256, `ssh_key` and RFC 3339 parsing, base64 decoding of signatures, operating-system randomness: foreign libraries, taken as arbitrary functions with the hypotheses named above.
- HTTP, TLS and Unix-socket transports, and JSON and TOML decoding: their outcomes are inputs; the heartbeat's request body beyond its generation and the acknowledgement's JSON shape would only add easy members.
- Constant-time behaviour of the comparisons: only their results are modelled. `fingerprints_equal` is the same loop as `constant_time_eq` and is not repeated.
- Durability below the file system call: `SecureWrite` models what each call makes visible, not what a power loss may undo before a sync.
- Concurrency between processes on one state directory: one process runs at a time, as the daemon assumes.
- Tokens, host names and server URLs: their independent checks in src/identity/enrollment.rs:113-166 are one input, `inputsValid`; file ownership and mode checks before a key is read are another, `keyReadable`.
- Floating-point rounding: jitter and backoff are computed over rationals; scheduler times are whole nanoseconds with jitter rounded down. A backoff multiplier is taken to be positive, and delays are compared for multipliers of at least one, since a smaller one is meant to shrink them.
- `Storage.Directory.SecureWrite`: does not model `InvalidPath` for a path without a parent, because every state path has one.
- `Polling.RunPolling`: does not describe a loop that runs for ever (either the flag flips or there is a cycle limit, both arbitrary), and does not model the callbacks' own work, because their errors are swallowed and their effects are the daemon's events.
- `Backoff.Retry`: does not describe a retry that never ends; `bound` is any number of failures after which the next call succeeds or a check around it says no.
- src/service/validation.rs, src/ssh/sshd_config.rs, src/platform, src/config.rs, src/logging.rs, src/clock.rs, src/state.rs and the deploy scripts: diagnostics, host inspection and glue with only easy members.
- Server-side honesty of 304 answers (section 13.1.2 of RFC 9110): the agent cannot decide it, so a 304 is an arbitrary answer.
