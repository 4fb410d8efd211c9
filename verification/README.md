# Bottlerocket: proofs about its stateful tools

This project models the places of Bottlerocket that keep state across steps, and proves what holds of
them for every input, every server and every interleaving. All files are Dafny 4.11; `dafny verify
dfyconfig.toml` checks the project.

## What is modelled

**`apiclient exec`** (`ExecProtocol`, `ExecSafety`, `ExecStream`, `ExecBound`, `ExecLiveness`,
`ExecDelivery`, `ExecSchedule`, `RetryRead`). The input thread, the task that reads from the server, the heartbeat and signal threads and
the server are a state machine. An action is one atomic step of one party: the two capacity counters are
stored in two steps and loaded in two steps, so torn pairs occur. The server is only held to what the
message types document. For safety an update may carry any count the server has reached; for liveness it
carries the count at the time it is sent. Main results: how far the client can run ahead, and for exactly
which inputs the documented bound holds; the wire carries exactly stdin; every wait for capacity ends; in
every fair run without I/O errors all of stdin reaches the child, and such a run exists for every input.

**Build outputs** (`Paths`, `FileSystem`, `BuildOutputs`, `BuildRuns`, `BuildHistory`). `copy_build_files` and
`clean_build_files` work on a disk that can fail or lose the process in front of any operation. Every
failure makes the source return, so the state on return with `n` operations allowed is the state at a crash
after `n` operations. A ghost map records which package placed the file that is now at each output path.
Main results: markers keep up with outputs over every history of aborted cleans and copies, and packages do
not disturb each other's outputs; the exact effect of a completed clean on files and on directories; copy
followed by clean.

**Test configuration** (`Variant`, `TestConfig`). Main results: `reduced_config` is the first value set in an
explicit order of precedence; `test_configs` returns exactly on acyclic redirects; when naming a table twice
matters.

**Updates** (`UpdateWait`, `UpdateRun`). `wait_request` against arbitrary replies, its meaning against a server
that takes and finishes commands of any callers, and the order of requests of `update apply`.

**Trusted store** (`Base64`, `Pem`, `PemRoundTrip`, `TrustStore`). What certdog writes, and reading it back.

**Smaller cores**: the lookaside cache (`Cache`), `apiclient apply` (`ApplySettings`), the IMDS token (`Imds`).
`Prelude` holds the types they share.

## Where the code differs from its comments

- `wait_for_capacity` allows one more read while `read - written <= max`, so `max + 1` input messages can be
  outstanding, and one message goes out before any capacity update. The comments on `AtomicCapacity`
  (`sources/api/apiclient/src/exec.rs` lines 504 and 514-515) say otherwise. `ExecBound.DocumentedBoundIff` and
  `ExecBound.SilentStartIff` say for which inputs the comments hold.
- `response_field` is documented to return nothing for a missing key. It returns the string it stopped at.
  `UpdateWait.FieldMeaning` has the exact condition.
- `clean_build_files` is documented to act on marker files. Its walk also yields links to directories, and the
  link and the output its stem names are removed. `BuildRuns.SweptAreMarkers` and
  `BuildHistory.OthersLoseIff` have the exact conditions.
- `fetch` returns Ok for a file that neither source delivered when the upstream fallback is off; the file is
  then absent. `Cache.PresentIff` says which files are there.

## Model

| member | source | states |
|---|---|---|
| `ExecSafety.InvStep` | sources/api/apiclient/src/exec.rs:368-519 | every step of every party keeps the relation between messages read, sent, received, written, reported and stored |
| `ExecSafety.OutstandingBounded` | sources/api/apiclient/src/exec.rs:468-498 | in every reachable state, sent minus written input messages is between 0 and 1 + the largest maximum announced, and the `checked_sub` error has not occurred |
| `ExecBound.BoundReached` | sources/api/apiclient/src/exec.rs:476-487 | for every stdin, mode and maximum `m`, announced or not: a run in which the server holds any number of unwritten input messages up to `m + 1` that stdin has pieces for |
| `ExecBound.DocumentedBoundIff` | sources/api/apiclient/src/exec.rs:500-519 | every run whose updates announce at most `m` keeps at most `m` messages outstanding if and only if stdin has at most `m` bytes in a terminal, `4096 * m` otherwise |
| `ExecBound.SilentStartIff` | sources/api/apiclient/src/exec.rs:511-519 | no run sends input before the first update if and only if stdin is empty |
| `ExecStream.WireCarriesStdin` | sources/api/apiclient/src/exec.rs:368-460 | in every run Initialize is first and only first, nothing of the stream follows ContentComplete, and the payloads are the leading pieces of stdin, equal to the bytes consumed |
| `ExecStream.CompleteMeansEverything` | sources/api/apiclient/src/exec.rs:437-457 | the payloads in front of a ContentComplete are all of stdin, in either input mode |
| `ExecStream.SplitSizes` | sources/api/apiclient/src/exec.rs:431-444 | every message but the last has the full chunk size and none is empty |
| `ExecStream.TerminalSendsBytes` | sources/api/apiclient/src/exec.rs:384-392 | in a terminal every input message is one byte |
| `ExecStream.BulkSendsBlocks` | sources/api/apiclient/src/exec.rs:431-444 | without a terminal every input message has 1 to 4096 bytes, and 4096 if another follows |
| `ExecStream.FinishedMeans` | sources/api/apiclient/src/exec.rs:396-457 | a finished input thread has sent all of stdin, and a ContentComplete unless it is a terminal and the push of that failed |
| `ExecStream.TerminalMayNotTell` | sources/api/apiclient/src/exec.rs:399-413 | a run in which that push fails: a terminal finishes all the same, otherwise it is an error |
| `ExecStream.ChildSeesPrefix` | sources/models/src/exec.rs:15-24 | what the child has been given is always a prefix of stdin |
| `ExecLiveness.HelperCan` | sources/api/apiclient/src/exec.rs:468-498 | no deadlock: in every waiting state the party that brings the end of the wait closer can act |
| `ExecLiveness.StepShrinks` | sources/api/apiclient/src/exec.rs:301-313 | while the thread waits no step of anyone raises the rank, and a step of the helper lowers it |
| `ExecLiveness.WaitEnds` | sources/api/apiclient/src/exec.rs:462-498 | in every fair run a thread that waits for capacity goes on to read input |
| `ExecSchedule.GoodRunExists` | sources/api/apiclient/src/exec.rs:419-498 | every stdin has a fair run without I/O errors, so the two results around it are about every input |
| `ExecDelivery.EverythingArrives` | sources/api/apiclient/src/exec.rs:419-460 | in every fair run without I/O errors the input thread finishes, the server has then written exactly stdin to the child, and has been sent a ContentComplete |
| `RetryRead.Reader.Read` | sources/retry-read/src/lib.rs:22-35 | one `read`: short, interrupted, failed or end of file, writing only what it reports |
| `RetryRead.RetryRead` | sources/retry-read/src/lib.rs:17-39 | on Ok the first `count` bytes are the next of the stream and the rest is untouched; short exactly if this call met end of file; an error loses only bytes that are in the buffer |
| `Paths.DropUndoesAdd` | tools/buildsys/src/builder.rs:410-411 | dropping the extension undoes appending the marker extension exactly for names that are not empty |
| `Paths.DropMarker` | tools/buildsys/src/builder.rs:489-496 | the same for the last name of a path |
| `Paths.SortDescending` | tools/buildsys/src/builder.rs:503-504 | the collected directories in strictly descending path order |
| `Paths.AboveIsLess` | tools/buildsys/src/builder.rs:501-504 | a directory sorts before everything below it |
| `FileSystem.Disk.CreateFile` | tools/buildsys/src/builder.rs:412-412 | an empty file, or no change; a link is written through and stays; exactly when it succeeds |
| `FileSystem.Disk.Rename` | tools/buildsys/src/builder.rs:428-431 | the node moves with its content and the package becomes its owner, or no change; exactly when |
| `FileSystem.Disk.RemoveFile` | tools/buildsys/src/builder.rs:465-465 | exactly one file or link goes, or no change; exactly when |
| `FileSystem.Disk.RemoveDir` | tools/buildsys/src/builder.rs:508-509 | exactly one empty directory goes, or no change; exactly when |
| `BuildOutputs.CreateDirAll` | tools/buildsys/src/builder.rs:422-426 | adds only the directories on the way, stays tracked if cut off, and fails only for lack of fuel or because a file is in the way |
| `BuildOutputs.CopyOne` | tools/buildsys/src/builder.rs:409-432 | marker, directories, move; outputs stay tracked if and only if no link is where the marker goes; it fails only for lack of fuel or because something is in the way, and then at most the marker is new |
| `BuildOutputs.CopyBuildFiles` | tools/buildsys/src/builder.rs:392-435 | every link and every file without the marker extension ends at the same relative output path with its content, and every other output path is as before; without links that have a marker name each leaves an empty marker and all stays tracked, also for those moved if it stops early; it completes if and only if nothing was in the way and the fuel lasts, for which a bound is stated |
| `BuildOutputs.WalkUp` | tools/buildsys/src/builder.rs:466-473 | the parent walk collects exactly the directories between top and file although it stops at the first known one |
| `BuildOutputs.Cleanup` | tools/buildsys/src/builder.rs:461-475 | removes exactly the path, or fails without a change |
| `BuildOutputs.CleanOne` | tools/buildsys/src/builder.rs:488-499 | output first, then marker; wherever it stops everything still placed is tracked |
| `BuildOutputs.SweepFiles` | tools/buildsys/src/builder.rs:486-499 | exactly the swept paths and the outputs they name are gone and exactly the directories above them are collected |
| `BuildOutputs.PruneDirs` | tools/buildsys/src/builder.rs:501-511 | only collected directories go, and none of them is left empty |
| `BuildOutputs.StaysHeld` | tools/buildsys/src/builder.rs:506-511 | a collected directory that stays has a file or an uncollected directory below it |
| `BuildOutputs.CleanBuildFiles` | tools/buildsys/src/builder.rs:442-514 | a completed clean removes every output that has a marker file, and the markers; without links to directories nothing else changes, completed or not; exactly the swept paths and what they name go, and a directory above them stays exactly if something below holds it; with a unit of fuel for every node it completes if and only if no such output is a directory |
| `BuildRuns.NothingLeft` | tools/buildsys/src/builder.rs:437-441 | after a completed clean nothing the package placed is left |
| `BuildRuns.SweptAreMarkers` | tools/buildsys/src/builder.rs:449-459 | clean removes exactly the markers and what they name if and only if the build directory holds no link to a directory |
| `BuildRuns.DirLinkDeletesStranger` | tools/buildsys/src/builder.rs:516-533 | a tree in which a link to a directory makes clean delete an output nobody placed |
| `BuildRuns.CopyThenClean` | tools/buildsys/src/builder.rs:409-499 | copy then clean takes artifacts and markers away and restores every other file that was not overwritten |
| `BuildRuns.OutputRestored` | tools/buildsys/src/builder.rs:409-499 | the output tree has its old files back if and only if no artifact landed on a file |
| `BuildHistory.OthersLoseIff` | tools/buildsys/src/builder.rs:442-514 | a completed clean takes an output that is not its package's if and only if a link to a directory in its build directory names it |
| `BuildHistory.RunClean` | tools/buildsys/src/builder.rs:442-514 | without a link to a directory a clean, completed or cut off, leaves every output that another package owns; completed, it leaves nothing of its own |
| `BuildHistory.RunCopy` | tools/buildsys/src/builder.rs:392-435 | a copy, completed or cut off, changes no output of another package |
| `BuildHistory.RunJob` | tools/buildsys/src/builder.rs:257-320 | one clean, delivery or copy cut off anywhere keeps outputs tracked, keeps what markers name within their package's outputs, and leaves those of others; a completed clean leaves nothing of its package |
| `BuildHistory.RunHistory` | tools/buildsys/src/builder.rs:257-320 | the same for every sequence of jobs of any packages; without links to directories the outputs of a package survive everything the others do |
| `Variant.ParseRebuilds` | sources/bottlerocket-variant/src/lib.rs:194-254 | the parts are dash-free names that rebuild the string or a front of it ending at a dash; without a version the string is the family |
| `Variant.JoinSplit` | sources/bottlerocket-variant/src/lib.rs:196-196 | splitting at dashes loses nothing |
| `Variant.ParseTwo` | sources/bottlerocket-variant/src/lib.rs:194-254 | what a string of two names parses to |
| `Variant.ParseThree` | sources/bottlerocket-variant/src/lib.rs:194-254 | what a string of three names parses to |
| `Variant.ParseFour` | sources/bottlerocket-variant/src/lib.rs:194-254 | what a string of four names, with or without a tail, parses to |
| `Variant.ParseIff` | sources/bottlerocket-variant/src/lib.rs:194-254 | a string parses if and only if it has at least two parts and none of the first four is empty |
| `TestConfig.MergeField` | tools/testsys-config/src/lib.rs:279-312 | each field of a merge is the first of the two that is set |
| `TestConfig.MergeMonoid` | tools/testsys-config/src/lib.rs:334-345 | merging is associative with the default as identity on both sides; this is what lets the starting config be laid on top of the folded rest |
| `TestConfig.StopsIffAcyclic` | tools/testsys-config/src/lib.rs:218-231 | the loop ends if and only if no test type repeats along the redirects, then within the number of test types; otherwise no number of rounds is enough |
| `TestConfig.TestConfigsMeaning` | tools/testsys-config/src/lib.rs:208-236 | the result is the configs along the chain and then the table, with the type the chain ends at |
| `TestConfig.TestConfigs` | tools/testsys-config/src/lib.rs:209-236 | the loop returns that result, with at most two configs more than there are test types and a type without a redirect |
| `TestConfig.FoldIsPrecedence` | tools/testsys-config/src/lib.rs:82-103 | folding the tables backwards for the type and reading the groups backwards again is the recursive precedence list |
| `TestConfig.FirstSetIsEarliest` | tools/testsys-config/src/lib.rs:107-113 | the chosen value is the one at the earliest position that sets the field |
| `TestConfig.ReturnsIffAcyclic` | tools/testsys-config/src/lib.rs:82-103 | the fold over the tables returns if and only if each table's chain is acyclic from the test type that reaches it |
| `TestConfig.ReducedIsFirstSet` | tools/testsys-config/src/lib.rs:69-116 | it returns if and only if every chain it meets is acyclic, and then every field of the reduced config is the first value set in the precedence list |
| `TestConfig.ThreePartTables` | tools/testsys-config/src/lib.rs:146-166 | the tables of a variant with a version and no flavor, in order |
| `TestConfig.FourPartTables` | tools/testsys-config/src/lib.rs:146-166 | the tables of a variant with a flavor, in order |
| `TestConfig.FirstSaidIsEarliest` | tools/testsys-config/src/lib.rs:107-113 | that is what the earliest config that says anything says |
| `TestConfig.LookupValue` | tools/testsys-config/src/lib.rs:69-116 | with redirects: each field is the first thing said by the start and the configs in order of precedence |
| `TestConfig.TwoPartLookup` | tools/testsys-config/src/lib.rs:69-116 | the same for a variant with neither |
| `TestConfig.ThreePartLookup` | tools/testsys-config/src/lib.rs:69-116 | the same for a variant with a version and no flavor |
| `TestConfig.FourPartLookup` | tools/testsys-config/src/lib.rs:69-116 | without redirects, for a variant with a flavor: each field is the first set of the start, then of the tables of variant, family-flavor, family, platform-flavor, platform and `test`, of each the part for the test type and then the table, of those the `x86_64` or `aarch64` values and then the general ones |
| `TestConfig.LessSpecificResolvesFirst` | tools/testsys-config/src/lib.rs:82-113 | of two tables the less specific one resolves the test type first and the more specific one is consulted first |
| `TestConfig.OnlyResult` | tools/testsys-config/src/lib.rs:69-116 | the result of the reduction is the only config with the values the lookups give |
| `TestConfig.TwoPartTables` | tools/testsys-config/src/lib.rs:146-166 | a two-part variant consults its table twice, each time followed by a table with the empty name if there is one |
| `TestConfig.DuplicateTable` | tools/testsys-config/src/lib.rs:82-113 | naming a table twice keeps the type, and keeps a field exactly under a stated condition on who sets it; without a redirect it changes nothing |
| `TestConfig.DuplicateCanMatter` | tools/testsys-config/src/lib.rs:82-113 | a file for which `reduced_config` on variant `aws-dev` gives another value than the table named once |
| `UpdateWait.ResponseField` | sources/api/apiclient/src/update.rs:130-147 | the cursor loop ends where the path can be followed to |
| `UpdateWait.FieldMeaning` | sources/api/apiclient/src/update.rs:124-147 | it is the string at the path; for a missing key it is nothing exactly if no string sits on the way |
| `UpdateWait.MissingKeyAnswered` | sources/api/apiclient/src/update.rs:139-146 | a body for which a missing key is answered |
| `UpdateWait.Notify` | sources/api/apiclient/src/update.rs:245-251 | the remaining time never underflows |
| `UpdateWait.Poll` | sources/api/apiclient/src/update.rs:255-311 | a poll counts as failure, as settled or as neither exactly by its reply; a held lock is neither |
| `UpdateWait.Wait` | sources/api/apiclient/src/update.rs:215-315 | the loop's polls, its outcome and its sleep for every reply sequence |
| `UpdateWait.OkIff` | sources/api/apiclient/src/update.rs:224-313 | success if and only if some poll within both budgets is the first to settle and shows success; at most `max_attempts - 1` polls and 5 failures |
| `UpdateWait.OneOutcome` | sources/api/apiclient/src/update.rs:224-315 | the replies determine the outcome and the number of polls |
| `UpdateWait.LockedThenDone` | sources/api/apiclient/src/update.rs:269-313 | after any number of 423 within the attempts, the first report of the command with a new timestamp decides the outcome |
| `UpdateWait.LockedForever` | sources/api/apiclient/src/update.rs:226-234 | a lock that is never released ends in a timeout after all attempts |
| `UpdateWait.FiveBrokenStop` | sources/api/apiclient/src/update.rs:226-242 | five lost replies or error codes other than 423 end the wait |
| `UpdateWait.LocksDoNotCount` | sources/api/apiclient/src/update.rs:269-280 | leaving out the replies with code 423 does not change the number of failures |
| `UpdateWait.CallThenDone` | sources/api/apiclient/src/update.rs:187-313 | a whole call by codes and fields: a first status not found or with an older timestamp, an accepted command, 423 for any number of polls within the attempts, and the report decides it |
| `UpdateWait.SleepBudget` | sources/api/apiclient/src/update.rs:149-156 | the total sleep is below the attempts times the interval |
| `UpdateWait.WaitRequest` | sources/api/apiclient/src/update.rs:173-315 | the exact requests sent and the outcome, including which error the early failures give |
| `UpdateRun.ConfirmedIsReal` | sources/api/apiclient/src/update.rs:5-12 | against every server that finishes each accepted command at most once with a fresh timestamp: a confirmed call means a command of that kind finished with success after the first status read; if nothing ran then and no other command was accepted since, it is the only one that finished and the one this call's request brought |
| `UpdateRun.Call` | sources/api/apiclient/src/update.rs:173-315 | a whole `wait_request` call: Ok if and only if the replies let it succeed, and then the request was accepted and its command happened |
| `UpdateRun.OtherCallerConfirms` | sources/api/apiclient/src/update.rs:14-19 | with another caller a call can report success although its own command failed |
| `UpdateRun.RequiredIff` | sources/api/apiclient/src/update.rs:53-70 | an update is wanted if and only if the state is neither Idle nor Ready |
| `UpdateRun.Check` | sources/api/apiclient/src/main.rs:708-715 | only a refresh is sent, and the result is exactly whether it succeeded and what its status says |
| `UpdateRun.Apply` | sources/api/apiclient/src/update.rs:73-101 | activate is sent only after prepare was confirmed, and it succeeds if and only if the replies let both calls succeed |
| `UpdateRun.UpdateApply` | sources/api/apiclient/src/main.rs:707-730 | over the whole command: activate after a confirmed prepare, reboot after a confirmed activate and only if asked, done only if an activate really succeeded, with `--check` nothing beyond the refresh unless an update is wanted; and the result is exactly what the replies decide, with the intervals and attempts of each call |
| `Base64.DecodeEncode` | sources/api/certdog/src/main.rs:180-180 | decoding undoes encoding for every byte string |
| `Base64.DigitTable` | sources/api/certdog/src/main.rs:180-180 | the digits are those of RFC 4648 |
| `Base64.GroupNumber` | sources/api/certdog/src/main.rs:180-180 | four digits are the number that three bytes are, and short groups are padded |
| `Pem.PemToString` | sources/api/certdog/src/main.rs:170-190 | the text of one certificate, or nothing if it does not parse |
| `Pem.EntryTextIs` | sources/api/certdog/src/main.rs:170-190 | the text of one certificate literally: comment, opening line, base64 lines, closing line |
| `Pem.PemsToString` | sources/api/certdog/src/main.rs:159-167 | the text of the bundle, or nothing if one does not parse |
| `Pem.BundleTextIs` | sources/api/certdog/src/main.rs:159-167 | each certificate is followed by an empty line |
| `Pem.ChunkSizes` | sources/api/certdog/src/main.rs:181-185 | every base64 line but the last has 64 characters |
| `PemRoundTrip.RoundTrip` | sources/api/certdog/src/main.rs:158-190 | reading the bundle, with lines that end at CRLF, CR or LF, gives back labels and contents in order if and only if no comment line opens a block |
| `PemRoundTrip.OneLineRoundTrip` | sources/api/certdog/src/main.rs:173-176 | in particular for comments without CR and LF |
| `PemRoundTrip.HarmfulComment` | sources/api/certdog/src/main.rs:173-176 | every comment with an opening line behind a line end, even a lone CR, spoils the file |
| `PemRoundTrip.SpoilerDoesHarm` | sources/api/certdog/src/main.rs:173-176 | one such comment |
| `TrustStore.SplitBundles` | sources/api/certdog/src/main.rs:78-110 | the two lists in iteration order; a certificate is trusted if and only if some record that is not blank and marked trusted holds it, distrusted likewise; it fails exactly if some record that is not blank does not decode |
| `TrustStore.BlankIff` | sources/api/certdog/src/main.rs:87-91 | a record is skipped exactly if trimming leaves nothing of it |
| `TrustStore.Retain` | sources/api/certdog/src/main.rs:135-136 | the list without the distrusted certificates |
| `TrustStore.WithoutCounts` | sources/api/certdog/src/main.rs:135-136 | distrusted certificates go entirely, others stay as often as they were there |
| `TrustStore.KeptIff` | sources/api/certdog/src/main.rs:133-136 | the store is the only list with the right count of every certificate in the order of source and trusted |
| `TrustStore.StoreOrderIrrelevant` | sources/api/certdog/src/main.rs:84-104 | any iteration order of the map gives the same multiset, and the same failure |
| `TrustStore.UpdateTrustedStore` | sources/api/certdog/src/main.rs:114-143 | a file is written exactly if every certificate that stays parses; what is read from it has every certificate 0 times if distrusted and otherwise as often as in source and trusted together, in their order, exactly if no comment line of one that stays opens a block |
| `Cache.Workspace.VerifyFile` | tools/buildsys/src/cache.rs:138-151 | success means the file is there with that hash |
| `Cache.Workspace.FetchFile` | tools/buildsys/src/cache.rs:80-121 | only the given path changes, and success means verified content |
| `Cache.FetchOne` | tools/buildsys/src/cache.rs:32-73 | one entry: only its final and temporary name change and nothing unverified gets the final name; when only downloads go wrong, an exact effect without the fallback and exact success with it |
| `Cache.PresentIff` | tools/buildsys/src/cache.rs:31-76 | without the fallback an entry is there after all rounds if and only if it was in place or the download made for it was complete with the right hash |
| `Cache.Fetch` | tools/buildsys/src/cache.rs:31-76 | wherever it stops no final name holds unverified new content; on success every entry is properly named and absent or verified, with the fallback there under its path or URL name; when only downloads go wrong: without the fallback it always succeeds and exactly the entries obtained are there, with it it succeeds if and only if every entry was in place or one of the two sources delivered it |
| `Cache.Collision` | tools/buildsys/src/cache.rs:51-65 | why the names must differ: a cut-off download lands under another entry's final name and all is reported well |
| `ApplySettings.FetchAll` | sources/api/apiclient/src/apply.rs:23-32 | at most four fetches are under way, and the responses are in input order whatever order they finish in |
| `ApplySettings.Check` | sources/api/apiclient/src/apply.rs:34-40 | one change per input in the same order, exactly if all inputs are good |
| `ApplySettings.ChangesEach` | sources/api/apiclient/src/apply.rs:34-40 | the i-th change is the i-th input formatted |
| `ApplySettings.PatchAll` | sources/api/apiclient/src/apply.rs:47-57 | live settings and other transactions stay, the own one collects the overlay; it succeeds exactly if every reply is good |
| `ApplySettings.LastWins` | sources/api/apiserver/src/lib.rs:18-30 | a key gets the value of the last input that mentions it |
| `ApplySettings.Apply` | sources/api/apiclient/src/apply.rs:16-67 | all or nothing: it succeeds if and only if all inputs are good and all replies are; bad input reaches no server; failure leaves live settings unless the commit's reply was lost; on success each key has the value of the last input that mentions it, or the one it had |
| `Imds.ImdsClient.WriteToken` | sources/imdsclient/src/lib.rs:366-378 | the token in hand is the first one issued in this call, or none was |
| `Imds.ImdsClient.TryFetch` | sources/imdsclient/src/lib.rs:290-360 | one attempt: without a token no GET; otherwise one, and the status decides the result and whether the token is kept |
| `Imds.ImdsClient.FetchImds` | sources/imdsclient/src/lib.rs:272-364 | over all calls a token that drew a 401 is sent again only if a later request was answered with it; never, if the server does not reissue tokens; a 200 or 404 is the result, and it gives up only after all attempts without one |

## Left out

- `messages_read` and the capacity counters are unbounded: 2^64 messages are not reached.
- Heartbeat timing, TTY ioctls, signals that end the client and the exit code of `exec`: no clocks and no process state.
- Symbolic links in the middle of a path: directories of both trees are plain directories, so the disk has no aliases.
- What a link points to is taken as fixed during one clean; cleaning removes directories only after its walk.
- File names that are not UTF-8, which the walk of the source skips.
- `Path::exists` answering no because of a permission error, which would let a marker go before its output.
- `FileSystem.Disk.CreateFile`: what a link points to lies outside both trees, so writing through it changes nothing in them.
- `BuildHistory.RunHistory`: skips a copy while a link in the build directory has a marker name, because `BuildOutputs.CopyOne` shows that it would lose track; artifacts are delivered only to outputs of their own package.
- `TestConfig.TestConfigs`: requires an acyclic chain, because on any other the source does not return; `TestConfig.StopsIffAcyclic` states that.
- `TestConfig.DuplicateTable`: is about two mentions in a row, which is what a file without a table of the empty name gives.
- `TrustStore.UpdateTrustedStore`: requires labels without CR and LF; labels come from parsing PEM lines.
- `PemRoundTrip.RoundTrip`: is about readers that look for boundaries on lines of their own, as RFC 7468 defines them, not about readers that accept one in the middle of a line.
- `Cache.Fetch`: promises nothing if two entries share a final name or one is the other's temporary name; `Cache.Collision` shows why.
- `Imds.ImdsClient.FetchImds`: time is a number of attempts, not a clock; the backoff is not modelled.
- JSON, TOML and X.509 parsing, SHA-512, HTTP, WebSocket frames and Docker are parameters or arbitrary replies.
- `apiclient` argument parsing, `set`, `get` and `raw`; logging and error texts: no property across steps.
- The API server, the data store and the updater beyond what their documentation promises to clients.
- corndog, metricdog, driverdog, logdog and the other small tools, pubsys, infrasys and the testsys resources: they would only add easy members.
