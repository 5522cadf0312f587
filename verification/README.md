# PADLL: verified model of the interposition engine

PADLL sits between an application and libc. Every intercepted call goes either to the
`LdPreloadedPosix` back end, which asks the mount point table for a workflow, submits the request to
the PAIO stage, makes the libc call, maintains the indexes of descriptors and streams and accounts
for the result, or to the `PosixPassthrough` back end, which makes the libc call and accounts for it.
This project models that engine and proves what holds of it over whole runs and over all
interleavings.

`dafny verify dfyconfig.toml` checks everything.

## How it is organised

- `Words`, `Operations`: machine integers; the 45 operations with their categories, positions,
  families, submission classes and contexts.
- `MountPoints`, `MountPointTable`: path classification and both indexes as maps, with their laws;
  the mutable table and workflow selection, proved against them.
- `Accounting`, `Statistics`: sheets of counters and histories of updates, with their laws; the
  mutable entries and containers, proved against them. `Report`, `ReportLaws`: the report text.
- `Engine`: the meaning of one call, as a function from state to state. `Components`,
  `LdPreloaded`, `FileSystem`: the objects of the program, whose methods are proved to do exactly
  that (`PosixFileSystem.Dispatch` is the whole of it).
- `Runs`, `Routing`, `Conservation`, `Submissions`, `EntryAccounting`, `RunReports`, `Streams`,
  `FdHistory`, `Transparency`: theorems about every run of the engine.
- `ConcurrentCounters`, `ConcurrentIndex`, `ConcurrentCalls`: the same steps cut at the locks, at the
  submission and at the libc call, and interleaved in every possible way. `BalancedSelection`: how
  selection spreads requests.

## How the outside is modelled

- libc and the kernel answer a call as an arbitrary function of the calls made before it. Nothing
  more is assumed, except where a theorem says so (`Streams.FreshStreams`; in `ConcurrentIndex`, that
  libc returns only free descriptors).
- The generator is an arbitrary stream of 32-bit numbers.
- PAIO is an append-only log of submissions (workflow, class, context, cost), each with the number of
  libc calls made before it.
- The configuration is a parameter: mount point differentiation, hard removal, number of workflows,
  intercept flags, collection of statistics in each back end, and the addresses of the standard
  streams. LdPreloaded may become ready at any step of a run. The theorems hold for all of these
  unless a `requires` clause names a value.
- The wrappers of one family differ in the libc symbol they call and in a few tags, so there is one
  method per family; the tags of each wrapper are `Engine.WrapperOf` and `Engine.PtWrapperOf`.

## What was found

- The mode of an `open`, `open64` or `openat` without `O_CREAT` is not passed on, so a program that
  uses `O_TMPFILE` does not make the same call over PADLL. Transparency holds exactly for the
  programs that do not do this (`Transparency.Transparent`).
- `notes/limitations.md:13-18` says that closing an unregistered descriptor is not enforced. The code
  picks a workflow by force in that case (`src/interface/ldpreloaded/ld_preloaded_posix.cpp:875-879`),
  so every close is enforced. The model follows the code (`Runs.FallbackVerdicts`).
- Duplicating a descriptor moves its entry instead of copying it, so the original, which stays open,
  is no longer enforced (`FdHistory.DuplicationStopsEnforcement`); if the target already has an
  entry, the moved one is lost.
- An open that registers late can overwrite the entry of a descriptor that was closed and opened
  again meanwhile (`ConcurrentIndex.EarlyCloseBreaks`). Under `option_hard_remove` a close that removes
  late unmaps a descriptor that is open again (`ConcurrentIndex.MappedUnlessRemovedLate`).
- A stream opened before LdPreloaded was ready stays out of the stream index until it is opened again
  (`Streams.StreamTableIsAllOpenStreams`).
- The passthrough files open64 with a mode under open64 (`EntryAccounting.PassthroughAccounting`).
- A report row of 75 or more characters does not fit its buffer (`ReportLaws.RowFitsBuffer`).
- A `long` holds an aggregate correctly exactly below 2^63 (`Accounting.AggregateIsRunTotal`), and a
  token cost is the requested size exactly outside 2^31 to 2^64 - 2^31 (`Words.TokenCostExact`).
- A sync served by LdPreloaded counts as enforced but submits nothing; one that takes the
  passthrough is not counted at all.

## Model

| member | source | states |
|---|---|---|
| `Transparency.Transparent` | include/padll/interface/native/posix_file_system.hpp:76-984 | for every adaptive program, configuration, way of the back end becoming ready, generator and libc: over PADLL the program makes the same libc calls in the same order as directly over libc if and only if no step passes a mode that the dispatcher drops; and then it sees the same results |
| `Transparency.OneLibcCall` | include/padll/interface/native/posix_file_system.hpp:76-984 | whichever back end serves a call, exactly one libc call is made and its result is returned |
| `Transparency.ForwardedExactly` | include/padll/interface/native/posix_file_system.hpp:258-386 | the call reaches libc unchanged exactly when it is not an open, open64 or openat with a mode and without O_CREAT |
| `Transparency.TemporaryFileModeIsLost` | include/padll/interface/native/posix_file_system.hpp:258-286 | a concrete program for which the libc calls differ: a mode without O_CREAT, as O_TMPFILE takes, is not passed on |
| `Routing.RoutedByFlag` | include/padll/interface/native/posix_file_system.hpp:76-984 | a fcntl, and an intercepted call while LdPreloaded is loaded, leaves the passthrough as it is; any other call leaves LdPreloaded, its indexes, log, counters and generator, as it is |
| `Routing.LdPreloadedUntouched` | include/padll/interface/native/posix_file_system.hpp:76-984 | a run with no fcntl and no intercepted call after loading ends with LdPreloaded as it began: nothing submitted, registered or counted there |
| `Routing.PassthroughUntouched` | include/padll/interface/native/posix_file_system.hpp:76-984 | a run whose calls are all fcntl or intercepted after loading ends with the passthrough as it began |
| `Routing.VariantExactly` | include/padll/interface/native/posix_file_system.hpp:258-386 | O_CREAT selects the form with a mode of open, open64 and openat, and nothing else does |
| `Conservation.TwoBackEndConservation` | include/padll/interface/native/posix_file_system.hpp:76-984 | with collection on in both back ends and fewer than 2^64 steps: per category, what LdPreloaded counted (operations and bypasses) plus what the passthrough counted plus the syncs that took the passthrough is the number of calls made, for all intercept flags and any moment of loading |
| `EntryAccounting.OperationConservation` | include/padll/interface/native/posix_file_system.hpp:76-984 | the same per operation, with collection on in both back ends and fewer than 2^64 steps: operations and bypasses of LdPreloaded plus operations of the passthrough are the calls to the operation, less the passed syncs for sync, and with the passed calls of open64 with a mode moved from their own entry to that of open64 |
| `EntryAccounting.PassthroughAccounting` | src/interface/passthrough/posix_passthrough.cpp:171-1100 | after any run each passthrough counter is the sum modulo 2^64 of what the calls filed under its entry add: one operation, the bytes of a successful read or write, and an error by the result the wrapper of that operation takes for one; open64 with a mode is filed under open64 and sync nowhere |
| `Conservation.ClassConservation` | src/interface/ldpreloaded/ld_preloaded_posix.cpp:345-1761 | with collection on and fewer than 2^64 steps, the submissions of each class are as many as the operations counted by its members (open: eight entries; unlink, rename, mkdir, mknod: two; the three xattr classes: three; any other class: its own entry) |
| `Conservation.OpenClassConservation` | src/interface/ldpreloaded/ld_preloaded_posix.cpp:588-866 | with collection on and fewer than 2^64 steps, the submissions tagged open are the operations of the eight entries open, open_variadic, open64, open64_variadic, creat, creat64, openat and openat_variadic |
| `Conservation.PairClassConservation` | src/interface/ldpreloaded/ld_preloaded_posix.cpp:1041-1381 | the same for unlink, rename, mkdir and mknod, each with its at form |
| `Conservation.AttributeClassConservation` | src/interface/ldpreloaded/ld_preloaded_posix.cpp:1412-1693 | the same for getxattr, setxattr and listxattr, each with its l and f forms |
| `Conservation.LogLength` | src/interface/ldpreloaded/ld_preloaded_posix.cpp:219-342 | with collection on and fewer than 2^64 steps, the length of the submission log is the sum of all operation counters minus that of sync |
| `Conservation.NextLog` | src/interface/ldpreloaded/ld_preloaded_posix.cpp:219-243 | a call submits one request, before its libc call, under the class, context and cost of its operation and the workflow that one more generator output selects, exactly when LdPreloaded serves it, it ought to be enforced and it is not a sync; otherwise neither the log nor the generator changes |
| `Submissions.LogIsWellFormed` | src/interface/ldpreloaded/ld_preloaded_posix.cpp:219-243 | every submission of every run names a registered workflow, has the data, directory or metadata context of the calls of its class, and costs one unless it is a read or write |
| `Submissions.EnforcedBeforeCalled` | src/interface/ldpreloaded/ld_preloaded_posix.cpp:345-1761 | in every run the requests come in the order of the libc calls, at most one for a call, each submitted just before the call it is for and with the class, context and cost of that call |
| `Submissions.WorkflowsInOrder` | src/stage/mount_point_table.cpp:471-487 | in every run one generator output is drawn per request, and the k-th output selects the workflow of the k-th request by its remainder |
| `Submissions.WorkflowsAreRegistered` | src/stage/mount_point_table.cpp:471-487 | the workflow of every request is a multiple of 1000 between the first and the last registered id |
| `Submissions.TransferCost` | src/interface/ldpreloaded/ld_preloaded_posix.cpp:345-519 | the request of a read or write of any size costs the low 32 bits of the size, with ones or zeros above them by bit 31 |
| `Conservation.TokenConservation` | src/interface/ldpreloaded/ld_preloaded_posix.cpp:345-519 | in every run the tokens submitted are the narrowed sizes of the enforced reads and writes plus one per other submission |
| `Conservation.SmallTokenConservation` | src/interface/ldpreloaded/ld_preloaded_posix.cpp:345-519 | when all sizes are below 2^31 they are the bytes of the enforced reads and writes plus one per other submission |
| `Conservation.CountersBounded` | src/statistics/statistics.cpp:108-144 | in a run of fewer than 2^64 steps no operation, error or bypass counter of either back end exceeds the number of steps, so none wraps |
| `EntryAccounting.RunAccounting` | src/statistics/statistics.cpp:108-144 | after any run each LdPreloaded counter is the sum modulo 2^64 of what the calls of exactly its own operation add: a bypass if the call is out of scope, else one operation, the bytes of its result and an error by its result |
| `EntryAccounting.EnforcedAmount` | src/interface/ldpreloaded/ld_preloaded_posix.cpp:246-308 | what an enforced call adds to each counter of its entry, told from the operation and the libc result |
| `EntryAccounting.PassedAmount` | src/interface/passthrough/posix_passthrough.cpp:171-1100 | what a passed call adds to each counter, told from the operation and the libc result |
| `EntryAccounting.PassedEntry` | src/interface/passthrough/posix_passthrough.cpp:451-470 | a passed call is filed under its own operation, but open64 with a mode under open64 |
| `Runs.IndexesAgree` | src/stage/mount_point_table.cpp:97-162 | in every reachable state the keys of both indexes are valid and the mount point of every entry is the classification of its path |
| `Runs.PickedExactly` | src/stage/mount_point_table.cpp:323-410 | in a sound state a call that ought to be enforced picks the workflow that the next generator output selects, drawing one; any other call picks the sentinel and draws none |
| `Runs.EnforcedExactly` | src/interface/ldpreloaded/ld_preloaded_posix.cpp:219-243 | in every reachable state a wrapper enforces exactly the calls that ought to be, operation by operation: a call with a path by that path, the twelve calls on a descriptor and fclose by the path their key is registered under, close and sync always, munmap, socket and fcntl never |
| `Runs.DescriptorLikePath` | src/stage/mount_point_table.cpp:344-368 | a call through a registered descriptor is enforced exactly when a path call on the registered path is |
| `Runs.ChargeVerdict` | src/interface/ldpreloaded/ld_preloaded_posix.cpp:246-342 | every call served by LdPreloaded charges one operation or one bypass to its own entry, the bypass exactly when it ought not to be enforced, and an error only with an operation |
| `Runs.FallbackVerdicts` | src/interface/ldpreloaded/ld_preloaded_posix.cpp:558-1761 | in every run the bypass counter of close is zero and the operation counters of munmap, socket and fcntl are zero |
| `Streams.StreamTableIsOpenStreams` | src/interface/ldpreloaded/ld_preloaded_posix.cpp:1158-1260 | in every run with fopen, fopen64 and fclose intercepted, wherever LdPreloaded becomes ready, the keys of the stream index are exactly the non-standard streams opened since then and not passed to fclose after, also when that fclose failed |
| `Streams.StreamTableIsAllOpenStreams` | src/interface/ldpreloaded/ld_preloaded_posix.cpp:1158-1260 | the keys are all the non-standard streams that are open if and only if every one that was open when LdPreloaded became ready has since been opened again or passed to fclose |
| `Streams.StreamTableIsHistory` | src/interface/ldpreloaded/ld_preloaded_posix.cpp:1158-1260 | after any run the stream index is the last-opener map of the history: an fopen writes its path under the stream it returned, an fclose removes it |
| `Streams.OpenAfterBoth` | src/interface/ldpreloaded/ld_preloaded_posix.cpp:1158-1260 | a stream is open after two histories as the second leaves it or, if the second does not touch it, as the first does |
| `Streams.CountersVersusTable` | src/interface/ldpreloaded/ld_preloaded_posix.cpp:1158-1260 | with fclose intercepted, collection on, fewer than 2^64 steps and a libc that returns fresh streams, successful fopen and fopen64 counts minus the fclose count are the number of entries whose mount point has workflows |
| `Streams.OnlyOpenStreamsRegistered` | src/interface/ldpreloaded/ld_preloaded_posix.cpp:1232-1260 | with fclose intercepted only open streams are registered, in every run and wherever the back end becomes ready |
| `Streams.NextOpenStreams` | src/interface/ldpreloaded/ld_preloaded_posix.cpp:1158-1260 | how a call served by either back end changes the streams that are open, counted from any point of the history |
| `Streams.NextBalance` | src/interface/ldpreloaded/ld_preloaded_posix.cpp:311-342 | with collection on, how one call moves the balance of successful opens and closes of streams |
| `Streams.NextHomeStreams` | src/stage/mount_point_table.cpp:129-162 | how one call moves the number of registered streams whose mount point has workflows |
| `FdHistory.FdTableIsHistory` | src/interface/ldpreloaded/ld_preloaded_posix.cpp:1719-1761 | after any run the descriptor index is the last-writer map of the history: opens write, a successful duplication moves the entry unless the target has one, failed duplications change nothing, and closes remove only under option_hard_remove |
| `FdHistory.NoStandardDescriptors` | src/stage/mount_point_table.cpp:47-55 | no descriptor up to 2 ever has an entry |
| `FdHistory.DuplicationStopsEnforcement` | src/interface/ldpreloaded/ld_preloaded_posix.cpp:1719-1761 | after a registered descriptor is duplicated onto another one, calls through the original are enforced exactly when its path is in scope and the result of the duplication was not a valid key |
| `FdHistory.DuplicateInherits` | src/interface/ldpreloaded/ld_preloaded_posix.cpp:1719-1761 | calls through the duplicate are enforced exactly when the path of the entry it inherits is in scope, or, if an entry was left under its number, the path of that one |
| `RunReports.LosslessReports` | src/statistics/statistics.cpp:153-194 | runs of fewer than 2^64 steps ending with equal reports of a category end with equal statistics of it, omitted entries included, when no counter overflows its column |
| `RunReports.ReportsFitBuffer` | src/statistics/statistic_entry.cpp:101-117 | the rows of such reports are safe to print |
| `RunReports.ReachableSane` | src/statistics/statistics.cpp:108-133 | in every reachable state of fewer than 2^64 steps an entry that has bytes has operations, so an omitted entry is all zero |
| `ConcurrentCounters.NothingIsLost` | src/statistics/statistics.cpp:108-144 | in every interleaving of separately locked increments each counter is, modulo 2^64, the total of the updates started minus what is still pending for it |
| `ConcurrentCounters.CounterPlusPending` | src/statistics/statistics.cpp:108-144 | while the total is below 2^64 counter plus pending is exactly the total started |
| `ConcurrentCounters.ErrorsNeverExceedOperations` | src/statistics/statistics.cpp:121-133 | in every state of every interleaving no entry shows more errors than operations, provided the operations started are fewer than 2^64 |
| `ConcurrentCounters.QuiescentIsSequential` | src/statistics/statistic_entry.cpp:69-98 | once no update is under way the counters are those of performing the started updates one at a time |
| `ConcurrentCounters.ScheduleIndependence` | src/statistics/statistic_entry.cpp:69-98 | interleavings of the same updates, in any order and on any numbers of threads, end with the same counters |
| `ConcurrentCounters.WrapperUpdatesAreSane` | src/interface/ldpreloaded/ld_preloaded_posix.cpp:246-308 | every update a wrapper of either back end makes reports at most as many errors as operations |
| `ConcurrentCalls.LogLeadsCounters` | src/interface/ldpreloaded/ld_preloaded_posix.cpp:219-342 | with collection on, in every state of every interleaving of fewer than 2^64 steps of threads inside the wrappers, the submissions of a class lead the operations counted by its members by at most one per thread |
| `ConcurrentCalls.QuiescentConservation` | src/interface/ldpreloaded/ld_preloaded_posix.cpp:219-342 | with collection on and fewer than 2^64 steps, once no call is under way, whatever the interleaving, the submissions of a class are exactly the operations counted by its members |
| `ConcurrentCalls.InterleaveAccounted` | src/interface/ldpreloaded/ld_preloaded_posix.cpp:219-342 | with collection on and fewer than 2^64 steps, submissions of a class are the operations counted by its members plus the threads that have submitted and not yet counted |
| `ConcurrentCalls.StepsAreServed` | src/interface/ldpreloaded/ld_preloaded_posix.cpp:345-1761 | with collection on, the steps of a call taken without interruption do to the log and the counters what the sequential engine does |
| `ConcurrentIndex.OpenDescriptorsAreMapped` | src/interface/ldpreloaded/ld_preloaded_posix.cpp:588-904 | in every interleaving of opens, closes and other openings and closings in which a descriptor is not closed before the open that produced it has returned and, under option_hard_remove, not removed by a close while it is open again, if it is open and its open has returned it is mapped to exactly the path and mount point of that open |
| `ConcurrentIndex.OpenDescriptorsAreEnforced` | src/stage/mount_point_table.cpp:344-368 | under the same two conditions a call through it is enforced exactly when the path of that open is in scope |
| `ConcurrentIndex.InterleavingsKeep` | src/stage/mount_point_table.cpp:97-126 | without an early close at most one registration of the descriptor is pending, and it is for the path the descriptor is open under; without a late removal the mapping is right too |
| `ConcurrentIndex.MappedUnlessRemovedLate` | src/interface/ldpreloaded/ld_preloaded_posix.cpp:889-895 | without an early close the mapping of the descriptor is right in every state if and only if no removal of a close comes while it is open and its open has returned |
| `ConcurrentIndex.NothingRemoved` | include/padll/options/options.hpp:94-98 | without option_hard_remove no removal ever comes late |
| `ConcurrentIndex.LateRemovalHappens` | src/interface/ldpreloaded/ld_preloaded_posix.cpp:889-895 | a concrete schedule under option_hard_remove that closes nothing early and leaves an open descriptor unmapped |
| `ConcurrentIndex.EarlyCloseBreaks` | src/interface/ldpreloaded/ld_preloaded_posix.cpp:603-610 | the other condition is needed: whenever an interleaving that kept it so far can close a pending descriptor while another thread is free, it can go on to a state where an open descriptor is mapped to the path of another open |
| `ConcurrentIndex.EarlyCloseHappens` | src/interface/ldpreloaded/ld_preloaded_posix.cpp:603-610 | a concrete schedule of two threads that reaches such a state |
| `ConcurrentIndex.StepsAreOpen` | src/interface/ldpreloaded/ld_preloaded_posix.cpp:588-619 | the three steps of an open taken without interruption are the open of the sequential engine |
| `ConcurrentIndex.StepsAreClose` | src/interface/ldpreloaded/ld_preloaded_posix.cpp:869-904 | the two steps of a close taken without interruption are the close of the sequential engine |
| `BalancedSelection.WorkflowsAreBalanced` | src/stage/mount_point_table.cpp:471-487 | each of the n registered workflows is selected by 2^32 / n or 2^32 / n + 1 of the generator outputs, the extra one going to the first 2^32 mod n |
| `BalancedSelection.ChoosingIsShare` | src/stage/mount_point_table.cpp:471-487 | the same for any number of outputs |
| `BalancedSelection.SharesAddUp` | src/stage/mount_point_table.cpp:471-487 | the shares of the workflows add up to the number of outputs |
| `BalancedSelection.MaximumIsExact` | include/padll/stage/mount_point_table.hpp:45-50 | the ids of the constructor loop fit an int exactly for up to 2147483 workflows |
| `MountPoints.WorkflowsAreSound` | include/padll/stage/mount_point_table.hpp:28-50 | the registered ids are positive, strictly increasing, fit an int and are never the sentinel |
| `MountPoints.WorkflowIds` | include/padll/stage/mount_point_table.hpp:28-50 | the i-th registered id is i * 1000, for as many workflows as configured, or six without differentiation |
| `MountPoints.ClassifyExactly` | src/stage/mount_point_table.cpp:431-468 | a path is classified as remote exactly if differentiation is on and it has the remote mount point somewhere between two strings, else as none; it is in scope exactly if differentiation is off or it has it |
| `MountPoints.OccursIsMentions` | src/stage/mount_point_table.cpp:431-446 | searching the path finds the mount point exactly if the path is some text, the mount point and some text |
| `MountPoints.InScopeExtends` | src/stage/mount_point_table.cpp:431-468 | a path in scope stays in scope when extended on either side |
| `MountPoints.CardinalityConservation` | src/stage/mount_point_table.cpp:97-285 | over any sequence of table calls the size of the descriptor index changes by creates that returned true minus removes that returned true minus replaces that returned true onto an occupied different key |
| `MountPoints.ReplaceBySelf` | src/stage/mount_point_table.cpp:258-285 | replacing a descriptor by itself is the identity |
| `Runs.SelectionExact` | src/stage/mount_point_table.cpp:471-487 | selection takes the id at the remainder of the output and draws one for the mount point with registered workflows, and yields the sentinel without drawing for any other |
| `Words.TokenCostIsSignExtension` | src/stage/data_plane_stage.cpp:113-136 | the cost that reaches the stage has the low 32 bits of the size and copies of bit 31 above them |
| `Words.TokenCostExact` | src/interface/ldpreloaded/ld_preloaded_posix.cpp:345-370 | the cost is the requested size exactly when the size is below 2^31 or at least 2^64 - 2^31 |
| `Accounting.ExactAccounting` | src/statistics/statistics.cpp:108-144 | after any history each counter is the modulo-2^64 sum of the updates of its own entry |
| `Accounting.ScriptIsApply` | src/statistics/statistics.cpp:108-144 | the increments of an update, performed one after the other, are the update |
| `Accounting.EntriesAddUp` | src/statistics/statistics.cpp:197-234 | modulo 2^64 the entries add up to the run total |
| `Accounting.AggregateIsRunTotal` | src/statistics/statistics.cpp:197-234 | what aggregate_counters returns on fresh statistics after any updates is the run total if and only if that total is below 2^63 |
| `Accounting.CountersAreTotals` | src/statistics/statistics.cpp:108-144 | below 2^64 each counter is the exact total of its updates |
| `ReportLaws.ReportInjective` | src/statistics/statistics.cpp:153-194 | the filtered report of a category determines every counter of it |
| `ReportLaws.RowInjective` | src/statistics/statistic_entry.cpp:101-117 | a row determines its name and its four counters |
| `ReportLaws.RowColumns` | src/statistics/statistic_entry.cpp:101-117 | a row is exactly 70 characters when no counter overflows its column, each column at its place |
| `ReportLaws.RowFitsBuffer` | src/statistics/statistic_entry.cpp:101-117 | a row, whatever its counters, fits the 75-byte buffer exactly when its columns together exceed their widths by at most four characters |
| `ReportLaws.DigitsRoundTrip` | src/statistics/statistic_entry.cpp:101-117 | reading a printed number gives the number back; it is never empty and has no blanks |
| `ReportLaws.PaddedInjective` | src/statistics/statistic_entry.cpp:101-117 | right alignment loses nothing of a text without blanks |
| `ReportLaws.LinesInjective` | src/statistics/statistics.cpp:186-190 | the lines of the report determine its rows |
| `ReportLaws.LineIsRow` | src/statistics/statistics.cpp:186-190 | line i of the report is row i |
| `ReportLaws.ReportLayout` | src/statistics/statistics.cpp:166-190 | the header line is there exactly when asked for, then the rule and the rows |
| `Report.ReportedExactly` | src/statistics/statistics.cpp:158-163 | while operations, errors and bypasses add up below 2^64, an entry is reported exactly when it has any of them |
| `RunReports.NamesDistinct` | include/padll/library_headers/libc_enums.hpp:27-91 | the names of the entries of a category are distinct |
| `Operations.PositionInjective` | include/padll/library_headers/libc_enums.hpp:27-91 | no two operations share a statistics entry |
| `Operations.EntryIsNamed` | include/padll/library_headers/libc_enums.hpp:27-91 | the entry at the position of an operation bears the name of that operation |
| `Operations.FamilyByDescriptor` | src/interface/ldpreloaded/ld_preloaded_posix.cpp:345-1693 | the steps of reads and writes, and of calls that pick by descriptor, belong to exactly the listed operations |
| `Operations.FamilyByPath` | src/interface/ldpreloaded/ld_preloaded_posix.cpp:588-1635 | the steps that pick by path belong to exactly the listed operations |
| `Operations.FamilyByOpening` | src/interface/ldpreloaded/ld_preloaded_posix.cpp:588-1229 | the steps that register a descriptor or a stream belong to exactly the eight opens and the two fopens |
| `Operations.FamilyOfOne` | src/interface/ldpreloaded/ld_preloaded_posix.cpp:522-1761 | close, fclose, sync, fcntl, munmap, mmap and socket have their own steps |
| `Operations.ContextByOperation` | src/interface/ldpreloaded/ld_preloaded_posix.cpp:345-1761 | data calls are submitted under the data context, rmdir under the directory context, all others under the metadata context |
| `Operations.MembersAreTheClass` | src/interface/ldpreloaded/ld_preloaded_posix.cpp:345-1761 | the member list of a class is exactly the operations that submit under it |
| `Operations.ClassKeeps` | src/interface/ldpreloaded/ld_preloaded_posix.cpp:345-1761 | all members of a class share its context, and only reads and writes carry a size |
| `MountPointTable.MountPointWorkflows.constructor` | include/padll/stage/mount_point_table.hpp:45-50 | the loop builds the ids 1000, 2000, ..., one per workflow, in order |
| `MountPointTable.MountPointTable.constructor` | src/stage/mount_point_table.cpp:11-37 | an empty table with the workflows of its configuration |
| `MountPointTable.MountPointTable.Initialize` | src/stage/mount_point_table.cpp:75-94 | registers the workflows of the remote mount point, or of none without differentiation |
| `MountPointTable.MountPointTable.RegisterMountPointType` | src/stage/mount_point_table.cpp:288-311 | sets the workflows of one mount point and leaves the others |
| `MountPointTable.MountPointTable.CreateFdEntry` | src/stage/mount_point_table.cpp:97-126 | a valid descriptor gets the entry, replacing one it has; true iff it had none; an invalid one changes nothing |
| `MountPointTable.MountPointTable.CreateStreamEntry` | src/stage/mount_point_table.cpp:129-162 | the same for streams |
| `MountPointTable.MountPointTable.GetFdEntry` | src/stage/mount_point_table.cpp:165-185 | finds the entry of a descriptor iff the descriptor is valid and registered |
| `MountPointTable.MountPointTable.GetStreamEntry` | src/stage/mount_point_table.cpp:188-208 | finds the entry of a stream iff it is valid and registered |
| `MountPointTable.MountPointTable.RemoveFdEntry` | src/stage/mount_point_table.cpp:211-231 | removes the entry of a valid descriptor; true iff it had one |
| `MountPointTable.MountPointTable.RemoveStreamEntry` | src/stage/mount_point_table.cpp:234-255 | the same for streams |
| `MountPointTable.MountPointTable.ReplaceFileDescriptor` | src/stage/mount_point_table.cpp:258-285 | moves the entry to the new key; an occupied key keeps its element and the moved entry is lost |
| `MountPointTable.MountPointTable.SelectWorkflowFromMountPoint` | src/stage/mount_point_table.cpp:471-487 | for the mount point with workflows, the id at the next output modulo their number, and one output is drawn; for any other the sentinel and no draw |
| `MountPointTable.MountPointTable.PickByPath` | src/stage/mount_point_table.cpp:323-341 | remote exactly if differentiation is on and the path contains the remote mount point, else none, and a selection for it |
| `MountPointTable.MountPointTable.PickByFd` | src/stage/mount_point_table.cpp:344-368 | a selection for the stored mount point of a registered descriptor, else the sentinel and no draw |
| `MountPointTable.MountPointTable.PickByStream` | src/stage/mount_point_table.cpp:390-410 | the same for streams |
| `MountPointTable.MountPointTable.PickByForce` | src/stage/mount_point_table.cpp:372-387 | a selection for the mount point that has workflows |
| `MountPointTable.MountPointTable.PickForClose` | src/interface/ldpreloaded/ld_preloaded_posix.cpp:869-879 | the pick of a close is a selection for the mount point that has workflows, with one draw, whether or not the descriptor is registered |
| `Statistics.StatisticEntry.IncrementOperationCounter` | src/statistics/statistic_entry.cpp:69-74 | adds to the operation counter modulo 2^64 and to no other |
| `Statistics.StatisticEntry.IncrementByteCounter` | src/statistics/statistic_entry.cpp:77-82 | the same for bytes |
| `Statistics.StatisticEntry.IncrementErrorCounter` | src/statistics/statistic_entry.cpp:85-90 | the same for errors |
| `Statistics.StatisticEntry.IncrementBypassCounter` | src/statistics/statistic_entry.cpp:93-98 | the same for bypasses |
| `Statistics.StatisticEntry.ToString` | src/statistics/statistic_entry.cpp:101-117 | the fixed-width row of the entry, provided it fits the 75-byte buffer it is printed into |
| `Statistics.Statistics.constructor` | src/statistics/statistics.cpp:14-18 | one zero entry per operation of the category, in order |
| `Statistics.Statistics.Initialize` | src/statistics/statistics.cpp:24-88 | appends the entries of a category and keeps the ones there are |
| `Statistics.Statistics.GetStatisticEntry` | src/statistics/statistics.cpp:97-105 | a fresh copy of the entry at the position of the operation |
| `Statistics.Statistics.UpdateStatisticEntry` | src/statistics/statistics.cpp:108-118 | charges operations and then bytes to the entry of the operation; all other counters stay |
| `Statistics.Statistics.UpdateStatisticEntryWithError` | src/statistics/statistics.cpp:121-133 | charges operations, then bytes, then errors to the entry of the operation; all other counters stay |
| `Statistics.Statistics.UpdateBypassedStatisticEntry` | src/statistics/statistics.cpp:136-144 | charges bypasses only |
| `Statistics.Statistics.AggregateCounters` | src/statistics/statistics.cpp:197-234 | the sum of one counter over all entries, modulo 2^64 and as a signed long; zero for an unknown counter type |
| `Statistics.Statistics.SelectReported` | src/statistics/statistics.cpp:156-163 | the entries with a positive wrapped sum of operations, errors and bypasses, in order |
| `Statistics.Statistics.ToString` | src/statistics/statistics.cpp:153-194 | the report: header, rule and one row per reported entry; empty when there is none; provided every row fits its buffer |
| `Components.DataPlaneStage.EnforceRequest` | src/stage/data_plane_stage.cpp:113-136 | appends one submission to the log, with the number of libc calls made before it |
| `Components.StatisticsSet.Post` | src/interface/ldpreloaded/ld_preloaded_posix.cpp:246-308 | an update of one of the five statistics leaves the other four alone |
| `LdPreloaded.LdPreloadedPosix.EnforceRequest` | src/interface/ldpreloaded/ld_preloaded_posix.cpp:219-243 | submits with the payload converted to uint64_t, before any further libc call, and reports enforced, exactly when the workflow is not the sentinel |
| `LdPreloaded.LdPreloadedPosix.UpdateStatistics` | src/interface/ldpreloaded/ld_preloaded_posix.cpp:311-342 | charges the entry of the wrapper by enforcement and result, if collection is on |
| `LdPreloaded.LdPreloadedPosix.UpdateStatisticEntryData` | src/interface/ldpreloaded/ld_preloaded_posix.cpp:246-256 | bytes and an operation for a non-negative result, an error for a negative one, a bypass when not enforced |
| `LdPreloaded.LdPreloadedPosix.UpdateStatisticEntryMetadata` | src/interface/ldpreloaded/ld_preloaded_posix.cpp:259-269 | an operation for a non-negative result, with an error for a negative one, a bypass when not enforced |
| `LdPreloaded.LdPreloadedPosix.UpdateStatisticEntryDir` | src/interface/ldpreloaded/ld_preloaded_posix.cpp:272-282 | only a zero result is a success |
| `LdPreloaded.LdPreloadedPosix.UpdateStatisticEntryExtAttr` | src/interface/ldpreloaded/ld_preloaded_posix.cpp:285-295 | as for data calls |
| `LdPreloaded.LdPreloadedPosix.UpdateStatisticEntrySpecial` | src/interface/ldpreloaded/ld_preloaded_posix.cpp:298-308 | as for metadata calls |
| `LdPreloaded.LdPreloadedPosix.Transferring` | src/interface/ldpreloaded/ld_preloaded_posix.cpp:345-519 | read and write family: pick by descriptor, enforce the narrowed size, one libc call, account |
| `LdPreloaded.LdPreloadedPosix.Mapping` | src/interface/ldpreloaded/ld_preloaded_posix.cpp:522-555 | mmap: pick by descriptor, cost one, MAP_FAILED is the error |
| `LdPreloaded.LdPreloadedPosix.Unmapping` | src/interface/ldpreloaded/ld_preloaded_posix.cpp:558-585 | munmap: the pick is the sentinel, so it is always bypassed |
| `LdPreloaded.LdPreloadedPosix.Opening` | src/interface/ldpreloaded/ld_preloaded_posix.cpp:588-866 | open family: pick by path, enforce, libc with the mode only in the forms that take one, register the result under the path, account |
| `LdPreloaded.LdPreloadedPosix.Closing` | src/interface/ldpreloaded/ld_preloaded_posix.cpp:869-904 | close: pick by descriptor or else by force; the entry is removed only under option_hard_remove |
| `LdPreloaded.LdPreloadedPosix.Syncing` | src/interface/ldpreloaded/ld_preloaded_posix.cpp:907-926 | sync: counted as enforced, nothing submitted |
| `LdPreloaded.LdPreloadedPosix.ByPath` | src/interface/ldpreloaded/ld_preloaded_posix.cpp:929-954 | the remaining calls with a path: pick by path, enforce cost one, libc, account |
| `LdPreloaded.LdPreloadedPosix.ByFd` | src/interface/ldpreloaded/ld_preloaded_posix.cpp:957-982 | the remaining calls with a descriptor: pick by descriptor, enforce cost one, libc, account |
| `LdPreloaded.LdPreloadedPosix.OpeningStream` | src/interface/ldpreloaded/ld_preloaded_posix.cpp:1158-1229 | fopen and fopen64: register the stream, account a null result as an error |
| `LdPreloaded.LdPreloadedPosix.ClosingStream` | src/interface/ldpreloaded/ld_preloaded_posix.cpp:1232-1260 | fclose: the entry is removed whether or not libc succeeds |
| `LdPreloaded.LdPreloadedPosix.MakingSocket` | src/interface/ldpreloaded/ld_preloaded_posix.cpp:1696-1716 | socket: counted as bypassed |
| `LdPreloaded.LdPreloadedPosix.Controlling` | src/interface/ldpreloaded/ld_preloaded_posix.cpp:1719-1761 | fcntl: F_DUPFD and F_DUPFD_CLOEXEC move the entry; counted as bypassed |
| `FileSystem.PosixPassthrough.Passing` | src/interface/passthrough/posix_passthrough.cpp:171-1100 | the passthrough wrapper of an operation other than sync: its one libc call, without a mode it does not take, and its update of the entry, with the success rule and byte count, of that operation |
| `FileSystem.PosixPassthrough.Syncing` | src/interface/passthrough/posix_passthrough.cpp:517-525 | sync returns before it is counted |
| `FileSystem.PosixFileSystem.Dispatch` | include/padll/interface/native/posix_file_system.hpp:76-984 | a call goes to LdPreloaded exactly when it is intercepted and that back end is loaded, fcntl always; the whole new state and the result are those of the engine |
| `FileSystem.PosixFileSystem.constructor` | include/padll/interface/native/posix_file_system.hpp:1-70 | both back ends in their initial state |

## Left out

- PAIO itself (channels, token buckets, the control plane): not in the repository; a submission always returns.
- `dlopen` and `dlsym` hooks, and the extraction of variadic arguments beyond the mode of the open functions: foreign calls.
- Logging, `tabulate`, report files, destructors and the environment variables of the stage: no state of the engine depends on them.
- `option_padll_workflows`: reading the environment variable; the model takes a positive number of workflows, up to the 2147483 for which `i * 1000` does not overflow an `int`.
- The xoshiro generator: a third-party header; any stream of 32-bit numbers is allowed instead.
- Selection by metadata unit: unimplemented stubs that return the sentinel; the unit of every entry is that constant.
- Null paths and null format strings: undefined in the source.
- The numeric values of the PAIO classes and contexts: defined in a PAIO header that is not part of the repository; classes are named by operations instead.
- Counters that overflow their report columns: the rows then have no fixed width and the report is not proved lossless; rows too long for their buffer are undefined in the source.
- Reads of counters by a report while updates are under way: a report is modelled as taken at rest.
- Pointers to entries returned by `get_mount_point_entry`: an entry is returned by value, so its lifetime under a concurrent replacement is not modelled.
- Concurrent `FILE*` calls and concurrent duplication: their libc step and table step are separate; the properties of these calls are proved for sequential runs only.
- A second thread between the draw and the use of a generator output: the generator is not locked in the source.
- ConcurrentCalls.Step: leaves open which workflow a call picks and what libc returns, and takes a submission as one step; the index is in `ConcurrentIndex`.
- ConcurrentIndex.Step: takes the classification, the libc call and the table update of an open or close as one step each; picking a workflow and accounting do not touch the index and are left out there.
- FileSystem.PosixFileSystem.SetLoaded: the back end object's own flag; the moment at which it is set is a parameter of the runs.
- Benchmarks, tests, rule files and performance summaries.
