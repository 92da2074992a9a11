# Relaunch, verified

A Dafny model of Relaunch, which signs the list of apps to start at login and starts them, and proofs
of what its design promises. Each module follows one part of the program; imperative code is modelled by
classes and loops proved equal to specification functions, and the promises are proved of those functions.

* **The document** (`Text`, `Model`, `Canonical`): validation, canonical order, and the signed bytes.
* **The authority** (`Crypto`, `Diff`, `Review`, `Disk`, `Store`, `Engine`): the review, the key store one
  filesystem call at a time, and the transaction engine.
  `Protocol`, `Generations`, `Lineage` and `Progress` run it: any interleaving of Prepare, the three steps of Authorize,
  Reduce, Purge, disconnects, clock ticks and filesystem faults, with a crash possible before or after
  every call. After a crash a directory may be as it was at any moment since its last sync, and an unsynced
  file may be torn.
* **The client** (`Frame`, `Driver`, `Panel`, `Attempts`, `Session`): relaunchctl and the panel's transaction
  lifecycle, separately and then together over a byte pipe that delivers in any pieces.
* **Text formats** (`Shell`, `ExecCheck`, `Desktop`, `Launcher`, `Edit`, `DotSegments`, `Calendar`, `Hooks`):
  printers and the parsers that must undo them; and what each parser makes of a text whoever wrote it (`Bash`,
  `Splits`, `Exec`).
* **Capture and boot** (`Propose`, `Recapture`, `Groups`, `Boot`): matching windows to stored pins, and the
  boot scheduler against an arbitrary compositor.

Assumptions. A signature verifies exactly the bytes and key it was made for, so a submitted base carries a
signature already handed out or none (`Lineage.Attainable`). Keys, transaction ids, check ids and pin ids
are newly drawn each time. The hash is an arbitrary function with 64 lower-case hex digits; where the bytes
must be the approved ones, equality of hashes is all that is claimed. The JSON parsers of the line protocol
are arbitrary functions, and the engine's `proposalJson` is one line, as `core/crates/relaunch-engine/src/propose.rs:170`
writes it. Requests, check results, window lists, refusals and faults are arbitrary inputs.

Where the promise and the code part ways, the code is kept and the exact condition proved:

* A recapture is not always a fixpoint: a typed command may hold a tab, which validation allows
  (`core/crates/relaunch-core/src/model.rs:369-371`) and the launcher writer refuses
  (`core/crates/relaunch-engine/src/launcher.rs:155-157`). See `Recapture.RecaptureFixpoint` and
  `Recapture.TabIsNoFixpoint`; without a tab in a typed command of the
  list it always is, by `Recapture.NoTabsFixpoint`.
* Saving the text shown for a typed command can store another command. See `Edit.SavingChangesNothing` and
  `Edit.NestedHappens`.
* Removing the boot line after installing it, or installing it twice, can differ for an empty hook or a
  marker that is itself a hook; the hooks Relaunch writes are neither. See `Hooks.RestoreExact` and
  `Hooks.InstallIdempotent`, `Hooks.EmptyHookClashes` and `Hooks.MarkerHookClashes` for an input of each
  kind, and `Hooks.UserFileRestored`.
* A generation can be read and then lost in a crash exactly when all the calls of its commit succeed but the
  last, the directory's sync, and that fails with the machine still up; nothing was handed out for it. See
  `Store.FallsExactly` and `Store.UnacknowledgedMayFall` beside `Generations.GenerationNeverFalls`.
* The comment at `core/crates/relaunch-anchor/src/boot.rs:109` says a group is named by its first member.
  It is, exactly unless a later entry shares a key with the group as it stood and then, further on, with one
  more group. See `Groups.NamedByFirst` and `Groups.LaterNames`; the partition does not depend on it.
* `remove_dot_segments` is described as section 5.2.4 of RFC 3986 transcribed literally
  (`core/crates/relaunch-engine/src/webapp.rs:117-119`). It is, on every path but those with a `..` that
  reaches a relative first segment; absolute paths, the only kind its caller has, are never such. See
  `DotSegments.FollowsTheRfc`, `DotSegments.AbsoluteFollows` and `DotSegments.RelativeDiffers`.

`dafny verify dfyconfig.toml` checks the project.

## Model

| member | source | states |
|---|---|---|
| `Model.Validate` | core/crates/relaunch-core/src/model.rs:341-471 | the loop that compares each entry with the one before returns the first broken rule, in the program's order of the rules |
| `Model.ValidateExact` | core/crates/relaunch-core/src/model.rs:441-471 | validation passes exactly the documents whose header and entries are valid and whose classes strictly ascend as a whole: comparing neighbours is enough |
| `Model.RulesExact` | core/crates/relaunch-core/src/model.rs:336-471 | so exactly the documents that keep every rule pass, whatever order the rules are checked in |
| `Text.LessIsBytes` | core/crates/relaunch-core/src/model.rs:459-469 | the order of scalar values used for classes throughout is the order of their UTF-8 bytes that the program compares |
| `Model.SortSorts` | core/crates/relaunch-core/src/model.rs:501-504 | sorting an arbitrary proposal by class bytes gives an ordered list (and, from its type, the same entries) |
| `Model.WithEntryExact` | core/crates/relaunch-engine/src/edit.rs:24-37 | the ordered-map insertion keeps class order, holds the new entry and loses only what had its id |
| `Canonical.WriteCanonical` | core/crates/relaunch-core/src/canonical.rs:20-87 | the writer, appending field by field, produces the canonical bytes |
| `Canonical.EntryRead` | core/crates/relaunch-core/src/canonical.rs:48-69 | a decoder recovers every field of an entry from its bytes, whatever the strings hold and whatever follows |
| `Canonical.ConfigRead` | core/crates/relaunch-core/src/canonical.rs:74-87 | a decoder recovers the whole document and leaves exactly what follows it |
| `Canonical.CanonicalPrefixFree` | core/crates/relaunch-core/src/canonical.rs:74-87 | no document's bytes start with another's |
| `Canonical.CanonicalInjective` | core/crates/relaunch-core/src/canonical.rs:74-87 | two documents with the same signed bytes are the same document |
| `Crypto.SignatureBinds` | core/crates/relaunch-core/src/crypto.rs:71-143 | a signature made for one valid document verifies for no other, and under no other key |
| `Crypto.VerifyExact` | core/crates/relaunch-core/src/crypto.rs:94-143 | what verifies is exactly a valid document of this version, uid, user and generation signed by this key, returned as presented |
| `Diff.EscapeText` | core/crates/relaunchd/src/diff.rs:60-79 | the escaping loop computes the escape whose inverse is proved in Review |
| `Diff.ComputeReview` | core/crates/relaunchd/src/diff.rs:232-302 | the review builder, pushing lines and counting changes, gives the review or the first cap it breaks |
| `Review.UnescapeExact` | core/crates/relaunchd/src/diff.rs:60-84 | reading an escaped, quoted value back gives the value, whatever characters it holds |
| `Review.EscapeVisible` | core/crates/relaunchd/src/diff.rs:54-79 | an escaped value is printable ASCII with no quote in it, and a value is shown as it is exactly when it is printable ASCII without quotes and backslashes |
| `Review.EntryExact` | core/crates/relaunchd/src/diff.rs:87-110 | a rendered entry line is read back as exactly that entry |
| `Review.RenderedRebuilds` | core/crates/relaunchd/src/diff.rs:232-302 | reading the rendered diff as a patch on the base rebuilds the proposal's entries and delays exactly |
| `Review.RenderedInjective` | core/crates/relaunchd/src/diff.rs:232-302 | two proposals that render alike against one base are the same proposal |
| `Review.RenderedVisible` | core/crates/relaunchd/src/diff.rs:54-110 | whatever the entries hold, the rendered review is printable ASCII and line ends |
| `Review.CapsExact` | core/crates/relaunchd/src/diff.rs:232-302 | a change is refused exactly when more classes differ, a line is longer or the two texts are together longer than the caps allow |
| `Review.HasChangeExact` | core/crates/relaunchd/src/diff.rs:232-302 | a change is reported exactly when entries or delays differ, and the count is the number of classes that differ |
| `Review.HeaderRead` | core/crates/relaunchd/src/diff.rs:286-302 | the rendered review opens with that number and the digest, each as it is |
| `Review.OpeningExact` | core/crates/relaunchd/src/diff.rs:136-176 | the summary opens exactly the enabled entries of the proposal, each once, by workspace, name and class; unmarked exactly when identical in the base, changed exactly when the base launches another of that class |
| `Review.StoppingExact` | core/crates/relaunchd/src/diff.rs:149-176 | it stops exactly the enabled entries of the base the proposal no longer launches, each once, in the same order, and marks none of them |
| `Review.SummaryShows` | core/crates/relaunchd/src/diff.rs:179-217 | each of them has its own row in the summary text, in that order, a change of the delays is its last line, and there is no line more |
| `Review.RowExact` | core/crates/relaunchd/src/diff.rs:179-217 | an app's name, workspace and mark can be told from its row, whatever characters the name holds |
| `Review.DelaysShown` | core/crates/relaunchd/src/diff.rs:179-217 | the summary states the delays exactly when they change: the new ones, then the old |
| `Review.SummaryVisible` | core/crates/relaunchd/src/diff.rs:179-217 | the summary is printable ASCII and line ends, and the dash that Relaunch puts after a name |
| `Disk.CallKeeps` | core/crates/relaunchd/src/store.rs:156-311 | whatever the world does to one filesystem call (success, failure half way, crash before or after), the store keeps its shape and a reader, now or after any later crash, finds nothing new but what the call put there |
| `Disk.LeavesKeeps` | core/crates/relaunchd/src/store.rs:238-271 | a crash shows a reader nothing that was not already a possible state |
| `Store.KeyStore.WritePublicDurable` | core/crates/relaunchd/src/store.rs:238-271 | one call after another, stopping at the first failure: the state and result of the specification |
| `Store.KeyStore.ReadOrCreateKey` | core/crates/relaunchd/src/store.rs:190-210 | a key is drawn only into a file just created |
| `Store.KeyStore.Enroll` | core/crates/relaunchd/src/store.rs:156-185 | the whole new state of enrollment |
| `Store.KeyStore.Publish` | core/crates/relaunchd/src/store.rs:220-236 | the whole new state of publishing a generation |
| `Store.KeyStore.Revoke` | core/crates/relaunchd/src/store.rs:288-311 | the whole new state of a purge, its loop over tombstones included |
| `Store.WritePublicKeeps` | core/crates/relaunchd/src/store.rs:238-271 | a commit, whatever interrupts it, leaves the old state or the new; once it returns, only the new, crash or no crash |
| `Store.CreateKeyKeeps` | core/crates/relaunchd/src/store.rs:190-210 | a key is drawn only where there is none, by a fresh draw, and on success is durably in place in every state a crash may leave |
| `Store.CommittedExact` | core/crates/relaunchd/src/store.rs:171-184 | on any disk, a key already there is accepted exactly with a committed state that names it |
| `Store.EnsureKeeps` | core/crates/relaunchd/src/store.rs:156-185 | first use draws a new key and commits generation 0 for it; otherwise the committed state is found as it was, and a key without one is refused |
| `Store.EnrollWorks` | core/crates/relaunchd/src/store.rs:156-185 | with no fault to come, enrolling succeeds exactly unless a crash cut a first enrollment short |
| `Store.PublishKeeps` | core/crates/relaunchd/src/store.rs:220-236 | publishing acts only on a strictly larger generation |
| `Store.PurgeKeeps` | core/crates/relaunchd/src/store.rs:288-311 | a purge succeeds only once no state a crash may leave has a live directory or a tombstone |
| `Store.PurgeWorks` | core/crates/relaunchd/src/store.rs:288-311 | with no fault to come, a purge succeeds from any state, however often it was cut short before |
| `Store.FallsExactly` | core/crates/relaunchd/src/store.rs:220-271 | for every enrolled store and all faults, what a commit put there can be read and yet lost in a crash exactly when its first four calls succeed and the directory's sync fails; the state before it can then come back |
| `Store.UnacknowledgedMayFall` | core/crates/relaunchd/src/store.rs:238-271 | it does happen: a store and faults for which a generation that can be read is lost in a crash |
| `Engine.Authority.HandlePrepare` | core/crates/relaunchd/src/engine.rs:278-340 | the whole new state and reply of Prepare |
| `Engine.Authority.HandleClaim` | core/crates/relaunchd/src/engine.rs:350-393 | phase 1 of Authorize: every refusal in order, and the claim |
| `Engine.Authority.HandleCheckFailed` | core/crates/relaunchd/src/engine.rs:565-572 | a refused or failed check frees the slot only if its own transaction still holds it |
| `Engine.Authority.HandleFinish` | core/crates/relaunchd/src/engine.rs:415-438 | phase 3 of Authorize: what is re-validated, and the commit |
| `Engine.Authority.CommitDoc` | core/crates/relaunchd/src/engine.rs:601-626 | validate, enroll, sign, check the size, publish, and only then hand out |
| `Engine.Authority.ReduceEntries` | core/crates/relaunchd/src/engine.rs:468-485 | the loop editing entries in place gives what `Lineage.OpsExact` describes, or names the first class it cannot find |
| `Engine.Authority.HandleReduce` | core/crates/relaunchd/src/engine.rs:447-503 | Reduce takes the slot first, then commits the reduced base or refuses |
| `Engine.Authority.HandlePurge` | core/crates/relaunchd/src/engine.rs:517-539 | an allowed Purge takes the slot and revokes |
| `Engine.Authority.HandleDisconnect` | core/crates/relaunchd/src/engine.rs:578-596 | a disconnect frees only a slot that connection prepared |
| `Protocol.RecordsHold` | core/crates/relaunchd/src/engine.rs:278-438 | over every run: the open transaction is the one frozen under its id, at most one claim was ever granted on it, nothing has taken the slot since, and no document was issued for it |
| `Protocol.AuthorizeSafe` | core/crates/relaunchd/src/engine.rs:278-438 | in every interleaving with crashes, a successful Authorize returns exactly the proposal one Prepare froze; as the generation after the one Prepare met, which is still the committed one under the same key; that connection claimed it, that claim's check then said yes, the lease was live, and no Reduce, allowed Purge or disconnect came between |
| `Protocol.AuthorizeOnce` | core/crates/relaunchd/src/engine.rs:413-438 | a transaction is committed at most once over a run, however many calls name it |
| `Protocol.LateResultHarmless` | core/crates/relaunchd/src/engine.rs:413-424 | a late result, yes or no, leaves another's transaction alone |
| `Protocol.ClaimSafe` | core/crates/relaunchd/src/engine.rs:350-393 | in every run a claim is granted only on a live transaction the same connection prepared, with no Reduce, allowed Purge or disconnect in between |
| `Protocol.ClaimedOnce` | core/crates/relaunchd/src/engine.rs:350-393 | a transaction is claimed at most once over a run |
| `Protocol.SlotKept` | core/crates/relaunchd/src/engine.rs:278-596 | short of a crash, a live transaction loses the slot only to a Reduce, an allowed Purge, its own connection leaving, its own check's no or its own commit: no other Prepare or connection takes it |
| `Progress.PrepareWorks` | core/crates/relaunchd/src/engine.rs:278-340 | at any readable generation below the last, Prepare answers Busy exactly while a transaction with time left holds the slot; otherwise it freezes exactly the valid proposals within the review's caps that change something, as the next document and under the new sender, reports the ones that change nothing, and names what it refuses |
| `Progress.ClaimWorks` | core/crates/relaunchd/src/engine.rs:350-393 | a claim is granted exactly to the connection that prepared the transaction, with time left and not claimed before; each refusal is given exactly in its case, and one takes the slot only from the transaction it names and only once its time has run out |
| `Progress.SlotFreed` | core/crates/relaunchd/src/engine.rs:413-596 | a Reduce, an allowed Purge, its connection leaving, its check's no, and its commit, succeed or fail, each leave the slot free |
| `Progress.AuthorizeWorks` | core/crates/relaunchd/src/engine.rs:278-438 | with no fault, no half-made enrollment and nothing in between, an admissible proposal that changes something, put up while the slot is free, claimed, approved and finished within its time, is signed as the next document |
| `Generations.CommitKeeps` | core/crates/relaunchd/src/engine.rs:601-626 | a document is handed out only once its generation is the sole committed state; a commit cut short offers a reader only the old state, a new key, or that generation |
| `Generations.CommitWorks` | core/crates/relaunchd/src/engine.rs:601-626 | with no fault to come, the commit of a valid document within the size limit goes through exactly unless a crash cut a first enrollment short |
| `Generations.FinishWorks` | core/crates/relaunchd/src/engine.rs:413-438 | so does an approved transaction that is live and still on its generation and enrollment |
| `Generations.CommittedVerifies` | core/crates/relaunch-anchor/src/verify.rs:47-93 | what was handed out is what the login anchor accepts, at once and after any crash |
| `Generations.SoundHolds` | core/crates/relaunchd/src/engine.rs:601-626 | over every run: keys follow one another, under one key generations strictly rise, and no state a crash may leave is behind a document handed out |
| `Generations.OnlyLastVerifies` | core/crates/relaunch-core/src/crypto.rs:94-143 | at any moment of any run, and after a crash then, the only document handed out that verifies is the last one, in whatever file its signature is presented |
| `Generations.IssuedIsDurable` | core/crates/relaunchd/src/engine.rs:598-626 | a reply carries a document only if the anchor will accept it, even after a crash right then |
| `Generations.GenerationNeverFalls` | core/crates/relaunchd/src/store.rs:212-271 | within one enrollment the committed generation never falls below a document handed out, crash or no crash, ever after |
| `Generations.PurgedNeverVerifies` | core/crates/relaunchd/src/store.rs:273-311 | after an answered Purge nothing handed out before it ever verifies again |
| `Lineage.DisableExact` | core/crates/relaunchd/src/engine.rs:468-485 | on ascending entries, Disable gives the same entries in the same places, the one of that class with `enabled` off and every other unchanged |
| `Lineage.DropExact` | core/crates/relaunchd/src/engine.rs:468-485 | Drop gives exactly the entries of other classes, unchanged and in order |
| `Lineage.OpsExact` | core/crates/relaunchd/src/engine.rs:468-485 | a list of operations is accepted exactly when each names a class that is there and has not been dropped by then; the result, in order, then holds exactly the entries of no dropped class, off where a Disable names them and otherwise as they were |
| `Lineage.OpTames` | core/crates/relaunchd/src/engine.rs:468-485 | an operation is refused exactly for an unknown class, and otherwise only disables or removes, keeping order |
| `Lineage.ReduceReplies` | core/crates/relaunchd/src/engine.rs:447-503 | Reduce says what it refuses: nothing enrolled, a base that does not verify, a class that is not there when its turn comes, or no generation left, each exactly in its case |
| `Lineage.ReducedValid` | core/crates/relaunchd/src/engine.rs:486-496 | what Reduce would produce is always a valid document |
| `Lineage.ReduceWorks` | core/crates/relaunchd/src/engine.rs:447-503 | with no fault to come, a reduction of what verifies goes through exactly when every operation names a class that is still there at its turn |
| `Lineage.ReduceBase` | core/crates/relaunchd/src/engine.rs:447-503 | with unforged bases, what Reduce hands out is the last document handed out with exactly the operations carried out: no entry of a dropped class, none enabled of a disabled one, every entry not named as it was; same delays and user, the next generation |
| `Lineage.IssuedFits` | core/crates/relaunchd/src/engine.rs:601-626 | over every run, no document longer than the limit is handed out |
| `Lineage.EnabledOrigin` | core/crates/relaunchd/src/engine.rs:447-503 | every enabled entry of a document was in one a check approved and, unchanged, in every document since |
| `Lineage.LaunchedWasApproved` | core/crates/relaunchd/src/engine.rs:278-503 | whatever the anchor would launch, at any moment and after any crash, was in a proposal that was reviewed, claimed by the same connection and approved by that claim's check |
| `Lineage.ReviewIsSigned` | core/crates/relaunchd/src/engine.rs:278-340 | the review shown at Prepare, read as a patch on the base put there if it verifies and on an empty list otherwise, is the document later signed, and differs from it; a base that was handed out is the very document it replaces |
| `Lineage.BaseExact` | core/crates/relaunchd/src/engine.rs:239-261 | the review is drawn against the base exactly when it verifies, and against an empty list otherwise |
| `Frame.Reader.ReadFrame` | core/crates/relaunchctl/src/frame.rs:26-50 | the frame read depends on the bytes alone, never on the chunks they come in, and a line leaves exactly what follows its newline |
| `Frame.Reader.PollFrame` | core/crates/relaunchctl/src/frame.rs:26-50 | a read raced with something else: what has arrived decides, in any chunks; a line leaves what follows its newline, and a read that waits loses nothing |
| `Frame.PollStable` | core/crates/relaunchctl/src/frame.rs:26-50 | bytes that have not arrived never change a frame already decided |
| `Frame.FrameRead` | core/crates/relaunchctl/src/frame.rs:26-50 | frames written one after another are read back one after another, up to the limit |
| `Driver.RunCommit` | core/crates/relaunchctl/src/driver.rs:105-176 | on a pipe that brings its bytes in any pieces, the run from request to outcome equals the dialogue of the phases over the bytes alone, and the service is asked to connect, prepare and authorize as specified |
| `Driver.AwaitAnswer` | core/crates/relaunchctl/src/driver.rs:154-176 | the race: input first, so the service is asked only once a read has to wait, and what has come by its answer is taken before the answer |
| `Driver.CommittedExact` | core/crates/relaunchctl/src/driver.rs:105-176 | a document is handed on exactly when a good request was put up for review, the next frame authorized, nothing withdrew by the time the service answered, and the answer is a document; and it follows the review |
| `Driver.AskedExact` | core/crates/relaunchctl/src/driver.rs:105-176 | the service is asked to authorize exactly when the review it put up was followed by authorize and nothing had withdrawn by then: once, for that transaction, after preparing the request; and a document is handed on only if it was |
| `Driver.EndsExact` | core/crates/relaunchctl/src/driver.rs:105-176 | every other ending: nothing to do exactly when the service says so, cancelled exactly when a review put up was withdrawn by the time the service answered, and failed otherwise; what is reported in each |
| `Driver.RunReduce` | core/crates/relaunchctl/src/driver.rs:179-223 | a promptless change is committed exactly for one well-formed request within the limits, a service in reach and a signed answer, whatever pieces it comes in; the service is asked for that reduction once, and for nothing otherwise |
| `Panel.Lifecycle.Finish` | TxnLifecycle.js:60-86 | the one terminal transition, a no-op once resolved |
| `Panel.Lifecycle.Begin` | TxnLifecycle.js:147-175 | refused while a change is being made, else a new attempt |
| `Panel.Lifecycle.ProposalEnded` | TxnLifecycle.js:225-257 | what each engine reply leads to: failure, a question, or the commit helper, as `Attempts.RepliesLead` and `Attempts.DropsAsked` prove of it |
| `Panel.Lifecycle.Replace` | TxnLifecycle.js:191-197 | going on to replace pins, only while the question is open |
| `Panel.Lifecycle.Keep` | TxnLifecycle.js:200-204 | keeping the list ends the attempt as cancelled |
| `Panel.Lifecycle.HelperStarted` | TxnLifecycle.js:259-266 | the request is written to a live attempt's helper, any other is terminated |
| `Panel.Lifecycle.HelperLine` | TxnLifecycle.js:268-291 | what each line of the helper does |
| `Panel.Lifecycle.HelperEnded` | TxnLifecycle.js:294-301 | an end without a result fails the attempt |
| `Panel.Lifecycle.Approve` | TxnLifecycle.js:303-313 | authorize is written once, and only with a review up |
| `Panel.Lifecycle.Withdraw` | TxnLifecycle.js:316-320 | the one cancel |
| `Panel.OneHelper` | TxnLifecycle.js:52-100 | if each process reports its end once, at most one helper is alive, and none while no change is being made |
| `Panel.InstallsHold` | TxnLifecycle.js:268-291 | an attempt installs one document at most, none before it resolves, and only if it ended committed |
| `Panel.NothingEmptyInstalled` | TxnLifecycle.js:268-291 | over every run, a result without a document installs nothing |
| `Panel.ResolvedForGood` | TxnLifecycle.js:60-86 | an attempt resolves once: its ending never changes, and nothing is installed in it afterwards |
| `Panel.StaleHarmless` | TxnLifecycle.js:52-100 | input from an abandoned or resolved attempt at most terminates that attempt's own helper |
| `Attempts.DropsAsked` | TxnLifecycle.js:191-257 | over every run, wherever the commit helper is started the attempt's engine reply either named no pins to drop and starts it at once, or named exactly those in question when the user chose to go on |
| `Attempts.RepliesLead` | TxnLifecycle.js:225-257 | and every usable reply leads there: the helper started at once when it drops nothing, exactly its pins put in question otherwise |
| `Attempts.AnswersLead` | TxnLifecycle.js:191-204 | going on starts the helper, keeping the pins ends the attempt as cancelled with nothing started |
| `Attempts.KeptForGood` | TxnLifecycle.js:200-204 | once the user keeps the pins, the helper is never started in that attempt |
| `Attempts.PlanExact` | TxnLifecycle.js:102-128 | a reply is usable exactly when the engine exited 0, said ok, gave a base and named a known kind; the request sent for a commit holds that base as a JSON string, whatever it holds, and then the proposal as it came |
| `Attempts.StringifyReads` | TxnLifecycle.js:117-118 | a JSON reader gets every string back from the request, and nothing in it ends it early |
| `Attempts.RequestSent` | TxnLifecycle.js:259-266 | over every run, a helper that starts is sent its own attempt's request, and one of an attempt that is over is stopped |
| `Attempts.ApprovalSent` | TxnLifecycle.js:303-313 | the user's yes is sent exactly while a review of an open attempt is up and it has not been sent before |
| `Attempts.LineTaken` | TxnLifecycle.js:268-291 | the first review of an expanding change is put up, a document is installed unless it is empty, and a document, nothing to do and an error each end the attempt their own way |
| `Attempts.EndsFree` | TxnLifecycle.js:52-100 | however an attempt ends, its running helper is stopped with it, and with none left the panel takes another change |
| `Attempts.CancelEnds` | TxnLifecycle.js:316-320 | a cancel ends an open attempt as cancelled, whatever it waits for, and changes nothing once it is over |
| `Session.LineLength` | core/crates/relaunchctl/src/frame.rs:26-50 | however much of a written line has arrived, a line read is the whole line |
| `Session.InvHolds` | TxnLifecycle.js:147-320 | over every run of panel and helper on a pipe that delivers in any pieces: who owns what, what has been written and read, and that each recorded fact rests on those before it |
| `Session.InstalledWasAuthorized` | core/crates/relaunchctl/src/driver.rs:105-176 | whatever a reviewed change installs is the service's own answer, given after the user authorized with exactly the service's one review of that attempt on screen, with no cancel before |
| `Session.InstalledReduction` | core/crates/relaunchctl/src/driver.rs:179-223 | any other installation is the service's answer to a reduction, with no cancel before |
| `Shell.Quote` | core/crates/relaunch-shell/src/shell.rs:167-194 | the quoting loop, over the backslash, single-quote and $'…' forms |
| `Shell.AnsiQuote` | core/crates/relaunch-shell/src/shell.rs:207-230 | the loop writing the $'…' form |
| `Shell.ReadStored` | core/crates/relaunch-shell/src/shell.rs:257-298 | the loop of the stored-command splitter |
| `ExecCheck.WordsOf` | core/crates/relaunch-shell/src/execcheck.rs:43-121 | the reader's loop over words, quotes, escapes, operators and comments |
| `ExecCheck.ReadDouble` | core/crates/relaunch-shell/src/execcheck.rs:65-83 | the loop inside double quotes |
| `ExecCheck.ReadAnsi` | core/crates/relaunch-shell/src/execcheck.rs:125-160 | the $'…' decoder, octal runs included |
| `ExecCheck.QuotedArgvReadsBack` | core/crates/relaunch-shell/src/shell.rs:199-204 | for every argv, the words of its quoted text are exactly that argv |
| `ExecCheck.QuotedIsPlain` | core/crates/relaunch-shell/src/execcheck.rs:167-171 | quoted text runs without a shell exactly when its program is one bash would look up, and then as that argv |
| `Bash.WordRead` | core/crates/relaunch-shell/src/execcheck.rs:43-160 | any word, however its parts are quoted or escaped, is read as what they say, and ends at a blank; comments and a lone `[` are as bash has them |
| `Bash.NeverWords` | core/crates/relaunch-shell/src/execcheck.rs:43-121 | after any words, an operator or expansion outside quotes, a `$` or backtick in double quotes, or a quote never closed makes a command that is never plain words |
| `Bash.OperatorNeedsBash` | core/crates/relaunch-shell/src/execcheck.rs:99-171 | after any quoted argv, an operator leaves a line that is stored to run under bash |
| `Shell.SyntaxExact` | core/crates/relaunch-shell/src/shell.rs:147-163 | bash takes a first word for itself exactly when it holds no slash and is one of its builtins or reserved words or sets a variable |
| `ExecCheck.SplitStoredAgrees` | core/crates/relaunch-shell/src/shell.rs:247-298 | the stored-command splitter gives the same argv exactly for those quoted without $'…' |
| `Splits.SplitExact` | core/crates/relaunch-shell/src/shell.rs:247-298 | a stored command with a quote or backslash is split into the words its parts say, however each is quoted; of one without any, the first line is split at its blanks |
| `Splits.PlainExact` | core/crates/relaunch-shell/src/shell.rs:167-194 | a word is left unquoted exactly when bash reads it as it stands |
| `Desktop.Tokenize` | core/crates/relaunch-desktop/src/lib.rs:261-305 | the tokenizer's loop, and each refusal |
| `Desktop.ExpandFieldCodes` | core/crates/relaunch-desktop/src/lib.rs:313-346 | the expansion loops, and each refusal; what they compute is given by the rows of `Exec` |
| `Exec.TokenExpands` | core/crates/relaunch-desktop/src/lib.rs:313-346 | inside a token the codes that stand for nothing vanish, `%%` is one percent and the rest is kept; a token that was only codes is gone altogether |
| `Exec.CodeGone` | core/crates/relaunch-desktop/src/lib.rs:313-346 | so a token that is one such code is as if it were not there, wherever it stands |
| `Exec.TokenRefused` | core/crates/relaunch-desktop/src/lib.rs:313-346 | `%c`, `%i`, `%k`, any other code and a percent at the end are refused, each with its own reason |
| `Exec.ExpandAccepts` | core/crates/relaunch-desktop/src/lib.rs:313-346 | a command is expanded exactly when every token is written with those codes, `%%` and other characters only |
| `Exec.TokenRead` | core/crates/relaunch-desktop/src/lib.rs:261-305 | a token is what its bare and quoted stretches say, blanks separate tokens, and an empty pair of quotes is a token |
| `Exec.LineRefused` | core/crates/relaunch-desktop/src/lib.rs:261-305 | a backslash outside quotes, any other escape inside them and quotes never closed are refused, each with its own reason |
| `Exec.LineRead` | core/crates/relaunch-desktop/src/lib.rs:446-493 | a key's line is its key and its unescaped value, whatever spaces stand around the `=` and whichever way it ends; an escape the format does not define makes the file undecodable |
| `Exec.OtherLines` | core/crates/relaunch-desktop/src/lib.rs:447-562 | of the other lines blanks and comments are passed over, a header is its brackets and what they hold, and anything without a `=` makes the file undecodable |
| `Exec.DecodeExact` | core/crates/relaunch-desktop/src/lib.rs:447-562 | a file is undecodable exactly for a line the format does not know or a key before any group; otherwise each key of the group `[Desktop Entry]` has the value its last line there gives it |
| `Exec.ParseExact` | core/crates/relaunch-desktop/src/lib.rs:58-88 | a decoded file is an app to start exactly when it is an application if it says what it is, its flags are `true` or `false`, and its command comes to at least one argument; and what is then read of it |
| `Desktop.SplitCanonicalExec` | core/crates/relaunch-desktop/src/lib.rs:116-135 | the splitting loop |
| `Desktop.CanonicalRoundTrip` | core/crates/relaunch-desktop/src/lib.rs:104-135 | every non-empty argv comes back from its canonical text, empty arguments included |
| `Desktop.CanonicalDetermines` | core/crates/relaunch-desktop/src/lib.rs:104-135 | a canonical command is the text of one argv only, the one it splits into |
| `Launcher.Serialize` | core/crates/relaunch-engine/src/launcher.rs:149-178 | the writing loop, and its two refusals |
| `Launcher.QuotedWhenReserved` | core/crates/relaunch-engine/src/launcher.rs:101-127 | an argument is put in double quotes exactly when it is empty or holds a character reserved by the Exec key section of the Desktop Entry Specification; with nothing reserved and no percent it is written as it is |
| `Launcher.ExecRoundTrip` | core/crates/relaunch-engine/src/launcher.rs:103-178 | every command without control characters, and no other, is written, and undoing escapes, tokens and field codes gives it back |
| `Launcher.LauncherReadsBack` | core/crates/relaunch-engine/src/launcher.rs:189-247 | the parser reads a launcher back as exactly its command and directory; nothing in a name or directory adds to it |
| `Launcher.ValidWritable` | core/crates/relaunch-engine/src/launcher.rs:240-247 | a valid entry has a launcher exactly when its command holds no tab |
| `Launcher.DecideRunsSigned` | core/crates/relaunch-anchor/src/launch.rs:67-87 | whatever bytes are accepted, they are the approved ones, of an entry to be started directly, and what runs is the signed command in the signed directory |
| `Launcher.DecideAcceptsWritten` | core/crates/relaunch-anchor/src/launch.rs:67-87 | the launcher written for an entry is accepted exactly when its command is canonical and its directory is not the empty string |
| `Edit.SavingChangesNothing` | core/crates/relaunch-engine/src/edit.rs:137-203 | saving the text shown for a typed command stores the same command, exactly unless the text is a plain /usr/bin/bash -c X with X empty or itself plain words |
| `Edit.NestedHappens` | core/crates/relaunch-engine/src/edit.rs:198-203 | a text for which it does not |
| `Edit.SetExecReplaces` | core/crates/relaunch-engine/src/edit.rs:137-170 | on a valid list the edit is accepted exactly when the text is not empty, the pin is there and what it becomes has a launcher and is valid; it then replaces that one pin, keeping its class, workspace, float and switch and a name it has, with no directory and bound to the launcher it will hold, leaves the rest as it was, and the final validation never refuses |
| `Edit.SetExecAgain` | core/crates/relaunch-engine/src/edit.rs:137-203 | saving the shown text proposes the same list again, exactly unless it is nested or gives a name to a pin that has none |
| `Propose.CorrelateAll` | core/crates/relaunch-engine/src/propose.rs:268-297 | the correlation loop over indexed and counted places |
| `Propose.BuildAll` | core/crates/relaunch-engine/src/propose.rs:368-456 | the building loop over the windows, and the final validation |
| `Propose.Choose` | core/crates/relaunch-engine/src/propose.rs:369-384 | of identical windows only the first is proposed for |
| `Propose.ChosenExact` | core/crates/relaunch-engine/src/propose.rs:369-384 | of the windows with one class, workspace and command exactly one is chosen, and none of them comes before it |
| `Propose.MergeAll` | core/crates/relaunch-engine/src/propose.rs:182-195 | the merging loop |
| `Propose.MergeDropsNothing` | core/crates/relaunch-engine/src/propose.rs:182-217 | a merge keeps every other pin of the base as it was, holds every captured one, drops none, and has the captured delays |
| `Recapture.CorrelateExact` | core/crates/relaunch-engine/src/propose.rs:268-297 | a window continues the one stored pin at its place exactly when both are alone there; otherwise the first stored pin at its place with exactly its command that no window before it continues, and none exactly when there is none |
| `Recapture.ContinuedOnce` | core/crates/relaunch-engine/src/propose.rs:268-297 | no stored pin is continued by two windows |
| `Recapture.EntriesExact` | core/crates/relaunch-engine/src/propose.rs:368-456 | the proposal holds exactly the valid pins built for the chosen windows within the limit, in class order |
| `Recapture.ProposedReflects` | core/crates/relaunch-engine/src/propose.rs:319-361 | every proposed pin is one window's: placed and trusted as seen, bound to the launcher it will hold, keeping the id, typed command and its label of the pin it continues, and otherwise as captured |
| `Recapture.BuildValid` | core/crates/relaunch-engine/src/propose.rs:440-456 | on a valid base the proposal always validates |
| `Recapture.StoredVsNew` | core/crates/relaunch-engine/src/propose.rs:319-361 | where a new pin would be valid, a continued one is refused exactly for a tab in its typed command |
| `Recapture.RecaptureFixpoint` | core/crates/relaunch-engine/src/propose.rs:268-456 | capturing an unchanged list again on what was just proposed proposes the same, exactly unless a window within the limit continues a typed pin with a tab while its own capture would make a valid pin |
| `Recapture.NoTabsFixpoint` | core/crates/relaunch-engine/src/propose.rs:268-456 | so it is a fixpoint whenever no typed command of the base holds a tab |
| `Recapture.TabIsNoFixpoint` | core/crates/relaunch-engine/src/propose.rs:319-361 | a valid base and one window for which it is not a fixpoint |
| `Groups.Program` | core/crates/relaunch-anchor/src/boot.rs:79-90 | the program read off a command is the first argument it splits into |
| `Groups.ProgramIsFirst` | core/crates/relaunch-anchor/src/boot.rs:79-90 | for a canonical command that is the program it runs |
| `Groups.BasenameExact` | core/crates/relaunch-shell/src/argv.rs:9-11 | a program key is what follows the last slash |
| `Groups.ClassWordExact` | core/crates/relaunch-anchor/src/boot.rs:92-101 | a class key is the class up to its first dash or dot, in lower case |
| `Groups.LinkedExact` | core/crates/relaunch-anchor/src/boot.rs:79-123 | two entries are held to be alike exactly when the programs they run have one name or their classes one first word |
| `Groups.Label` | core/crates/relaunch-anchor/src/boot.rs:106-123 | relabelling in place computes the labels of the specification: equal labels only for connected entries, and linked entries merged |
| `Groups.LabelsExact` | core/crates/relaunch-anchor/src/boot.rs:106-123 | labels agree exactly for entries a chain of shared programs or class words connects |
| `Groups.NamedByFirst` | core/crates/relaunch-anchor/src/boot.rs:106-123 | an entry gives its group the name it ends up with exactly unless it shares a key with an earlier entry, or a later entry shares one with its group as it stood and then, further on, with the first of another group |
| `Groups.LaterNames` | core/crates/relaunch-anchor/src/boot.rs:109-123 | three entries whose group ends up named by the second |
| `Groups.GroupsOf` | core/crates/relaunch-anchor/src/boot.rs:106-133 | every entry in exactly one group, launch order kept, and groups are the connected components |
| `Groups.RoundsExact` | core/crates/relaunch-anchor/src/boot.rs:178-223 | the rounds start each entry once, never two of a component in a round, a component's entries in order |
| `Boot.LaunchOrderExact` | core/crates/relaunch-anchor/src/boot.rs:178-184 | boot orders exactly the enabled entries that do not run Relaunch, by workspace and then id |
| `Boot.Anchor.Claim` | core/crates/relaunch-anchor/src/boot.rs:301-318 | nothing is asked exactly when the window is already on its entry's workspace and, if a float is captured, has it; otherwise one request is, with a workspace exactly when it is elsewhere and a float exactly when it differs, and the window so moved is where its entry says; what is recorded says so |
| `Boot.Anchor.Watch` | core/crates/relaunch-anchor/src/boot.rs:260-297 | against any lists: no address given twice, none from the first list, each launch given the first new window of its class in one of the lists, no waiting launch left with such a window in the last list, and at most ceil(limit/interval)+1 reads, all of them if anything still waits |
| `Boot.Anchor.ClaimByPid` | core/crates/relaunch-anchor/src/boot.rs:324-350 | one list is read, and only if something waits: a launch is given the first new window of its own process, never of process 0, and its class is recorded as seen; no waiting launch is left whose process has a new window |
| `Boot.Anchor.Settle` | core/crates/relaunch-anchor/src/boot.rs:355-379 | the report is re-read from one last list, each launch as that list shows it; without a list nothing changes, and nothing is moved or claimed |
| `Boot.SettledExact` | core/crates/relaunch-anchor/src/boot.rs:355-379 | its verdicts are true of that list |
| `Boot.Anchor.Run` | core/crates/relaunch-anchor/src/boot.rs:178-236 | over a whole boot of a verified document, in its launch order: every entry started, round by round, each round after the signed delays and watched; then the sweep, the match by process and the report. No address is given to two launches, none from the first list is given or moved, every window given was in a list read, a launch still waiting was watched for to the last with nothing of its class or process left in the lists, only a launch that started is watched for or given a window, the report is what the final list shows, and a boot has landed exactly when all its launches are placed |
| `Boot.DelaysExact` | core/crates/relaunch-anchor/src/boot.rs:174-198 | the waits of a boot add up to the signed delay before each round and, between two rounds, the other one, never less than 250 ms |
| `DotSegments.RemoveDotSegments` | core/crates/relaunch-engine/src/webapp.rs:121-157 | the rewriting loop, which ends on every input |
| `DotSegments.DotsIsStack` | core/crates/relaunch-engine/src/webapp.rs:121-157 | on every absolute path, and behind any first segment, Relaunch's loop and the RFC's are the segment-stack reading of section 5.2.4 of RFC 3986 that keeps empty segments and the final slash, but for what is left of that first segment |
| `DotSegments.AbsoluteDots` | core/crates/relaunch-engine/src/webapp.rs:121-157 | its output is absolute, with exactly the stack as its segments and no dot segment |
| `DotSegments.DotsIdempotent` | core/crates/relaunch-engine/src/webapp.rs:121-157 | normalising twice changes nothing more |
| `DotSegments.AnyPath` | core/crates/relaunch-engine/src/webapp.rs:121-157 | what the loop makes of every path, absolute or not, by its segments |
| `DotSegments.FollowsTheRfc` | core/crates/relaunch-engine/src/webapp.rs:117-157 | for every path, Relaunch gives what the RFC's algorithm gives exactly unless a `..` reaches a relative first segment |
| `DotSegments.AbsoluteFollows` | core/crates/relaunch-engine/src/webapp.rs:121-157 | so it does on every absolute path |
| `DotSegments.RelativeDiffers` | core/crates/relaunch-engine/src/webapp.rs:124-129 | a path for which it does not |
| `Calendar.CivilNext` | core/crates/relaunch-anchor/src/report.rs:368-379 | every date is valid, and consecutive days are calendar successors |
| `Calendar.CivilIsCounted` | core/crates/relaunch-anchor/src/report.rs:368-379 | the closed form is the day counted on the calendar from 1970-01-01 |
| `Calendar.CivilNumber` | core/crates/relaunch-anchor/src/report.rs:368-379 | the date's day number, added up by years and months, is the input day |
| `Calendar.IsoExact` | core/crates/relaunch-anchor/src/report.rs:368-387 | the text's fields are a valid date and time that number exactly the given second, for every 64-bit count |
| `Hooks.RemoveBootstrap` | core/crates/relaunch-engine/src/hooks.rs:60-98 | the removing loop with its held marker |
| `Hooks.InstallBootstrap` | core/crates/relaunch-engine/src/hooks.rs:104-112 | the appending of marker and hook |
| `Hooks.RemovedExact` | core/crates/relaunch-engine/src/hooks.rs:60-98 | taking the boot line out takes exactly the lines that are hooks and the markers right above one, for all bytes and any hooks, and keeps the final newline or its absence |
| `Hooks.InstalledLines` | core/crates/relaunch-engine/src/hooks.rs:104-112 | putting it in adds exactly the marker and the hook as the last two lines, and keeps the final newline or its absence |
| `Hooks.HookFreeUntouched` | core/crates/relaunch-engine/src/hooks.rs:60-98 | a file with no hook line is left byte for byte, final newline and lone markers included |
| `Hooks.RestoreExact` | core/crates/relaunch-engine/src/hooks.rs:60-112 | removing after installing gives the file removed at first, for all bytes and any hook among ours, exactly unless the hook is empty after an unterminated line or the marker itself counts as a hook after a lone marker |
| `Hooks.InstallIdempotent` | core/crates/relaunch-engine/src/hooks.rs:104-112 | installing twice is installing once, for all bytes and any hook among ours, exactly unless they clash as above |
| `Hooks.EmptyHookClashes` | core/crates/relaunch-engine/src/hooks.rs:60-112 | a file and an empty hook for which both fail |
| `Hooks.MarkerHookClashes` | core/crates/relaunch-engine/src/hooks.rs:60-112 | a file for which both fail for every hook, once the marker counts as one |
| `Hooks.UserFileRestored` | core/crates/relaunch-engine/src/hooks.rs:60-112 | for non-empty hooks other than the marker, both hold without condition and a hook-free file comes back byte for byte |

## Left out

- One uid is modelled, so the per-uid lock is taken as given and `invalidate_sender` looks at one slot, not at every uid's.
- The pairing code, the prompt text, the cancellation of a running check and `has_pending`: display and plumbing with no effect on what is signed.
- Ed25519, SHA-256, hex and the random source: taken as ideal (see the assumptions above). The loop in `fresh_id` that redraws a taken id is folded into ids being new.
- JSON and serde, including its size: the serialized size of a document is an arbitrary function compared with the limit.
- File modes, ownership walks, symlink resolution and transient read errors of the key store; a purge where the state root does not exist.
- Launcher.LauncherReadsBack: the freedesktop file library is not part of this model; its decoding is modelled as `core/crates/relaunch-desktop/src/lib.rs:447-562` relies on it. A header that is not closed at the end of its line counts as malformed, and only spaces are dropped around a `=`.
- Starting a process: `spawn`, read_launcher, launchable and the uwsm wrapper: operating-system behaviour after the decision.
- Frame.Reader.ReadFrame: read errors are not modelled, and nothing is said of the input left after an oversize frame, because every caller stops there.
- Driver.RunCommit: error texts are not modelled, and a call given up when the user withdraws is simply not answered.
- Session.InvHolds: the helper's connecting and preparing are one answer of the service there, since both fail alike.
- The panel's display text (status, notice, hint, merged windows): set beside the fields modelled, and read by none of them. A name a reply gives that is no text is filtered out before the pins to drop reach the model.
- Session.InstalledWasAuthorized: lines of a helper that has already ended are not delivered; `Panel.StaleHarmless` covers such lines.
- The rows of `candidates` that `build` reports for display, with their reasons and labels.
- Window capture, /proc and index reading: `Propose` takes arbitrary captures.
- Boot.Anchor.Run: the flags that suppress or skip a boot and the record's text are not modelled, and which commands count as running Relaunch is an arbitrary predicate.
- What a start reports beyond whether it began and with which process.
- The rest of `identity_from_url` (host, user info, port), the rest of `hooks.rs` (file rewriting), CoreInstall.js, the command line, the startup scan, QML and shell scripts: plumbing with no hard property.
