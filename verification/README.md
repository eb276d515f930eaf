# TaskExplorer protocols and parsers, in Dafny

This project models the stateful and algorithmic parts of TaskExplorer's drivers and helper
processes and proves what they guarantee over every input, every pattern of failures and every
interleaving. `dafny verify dfyconfig.toml` checks all of it.

Calls into the operating system are nondeterministic: each is either a parameter that says how the
system answers (a script, or a function of the attempt number or block offset), or an event of a
step system. A claim about all parameters, or about all event sequences, is a claim about every
behaviour of the system.

| file | models |
|---|---|
| ClientProtocol, ClientInvariant, ClientTheorems, ClientAlone, ClientRuns, ClientOverlap | client verification and the two access keys shared by any number of threads (KSystemHacker/verify.c) |
| CopyPlan, CopyOutcome, BlockCopy, CopyReport | the block copy between processes: which blocks it attempts, what stops it and what it leaves, the methods that do it, and the length it reports (KSystemHacker/vm.c) |
| KernelRead | the kernel-range read with its module check and page walk (KSystemHacker/vm.c, util.c) |
| CommandLine, OptionMeaning, CrashLine, CrashFilter, Digits | the crash-dump command lines: parser, two printers, round trips, the crash filter that fills them in (MiniDump) and the decimal parser of TaskHelper |
| Framing, DumpSession, ProcReaders | packets over a stream socket, the ptrace dump session, bounded readers (TaskHelper/LinuxMain.cpp) |
| ObjectName, HandleEnum, StackTrace | sized-buffer queries of the driver (KSystemHacker/object.c, thread.c) |
| AsyncPrepare, AsyncTheorems | the background update preparation and its status requests (UpdUtil/UpdServ.cpp) |

## How the pieces are modelled

- **Step systems** (`ClientProtocol`, `AsyncPrepare`). Every access to a shared field, every mutex
  operation and every random draw is one step; memory is sequentially consistent. The program
  counter of a thread is the source line it runs next. An event that cannot happen changes nothing,
  so every event sequence is a run. The three client flags are bit-fields of one word, but all
  writes to them happen under StateMutex, so they are separate fields here. History fields record
  what happened (calls that passed the test on line 258, keys handed out, answers given); no step of
  the protocol reads them.
- **Keys.** `NO_SECURITY` is defined in the source, so verification succeeds without looking at the
  signature and the key 0xFFFFFFFF is always accepted; both are modelled as written. RtlRandomEx
  answers at most MAXLONG - 1, so no generated key equals that value.
- **Block copy.** Attaching, pool allocation, MDL locking and mapping are methods of `Kernel` whose
  preconditions forbid releasing what is not held, overflowing the 15-entry MDL or copying past the
  staging buffer. `CopyPlan` gives, as functions of the call and of how the system behaves, the blocks
  attempted, what the caller is told and what the target holds; a ghost log records the blocks that
  the methods attempt. Which bytes of an interrupted block reached the target is a parameter.
- **Strings** are the text before the NUL and a pointer into a string is the text from there on.
  wcstoul and wcstoull are modelled with blanks, sign, optional 0x and saturation.
- **Dump session.** A detach may be refused by the kernel; the threads left traced are then exactly
  the refused ones. A thread that dies is still counted as traced until it is released.
- **Layouts and widths** are those of a 64-bit little-endian build.

## Where the code does less than it seems

- `KphVerifyClient` tests VerificationPerformed outside the mutex. Two calls that both pass write
  the range one after the other while a retrieval reads it unlocked, so a key can be handed to a
  routine in neither range. `ClientOverlap.ReachableExact` says exactly which requests can obtain a
  key, for any number of calls from any processes that share the client; calling more than once
  gains nothing (`ClientOverlap.OnceExact`). `ClientOverlap.NothingEscapesExact` says when every key
  still goes into a region verified for the process that gets it: for each process with a passing
  call, its own regions have to cover everything from the lowest base over all passing calls up to
  the highest base plus the largest size. Within one process that means no gap and one call with
  both the highest base and the largest size (`ClientOverlap.OneProcessExact`). A single call
  (`ClientTheorems.OneEntryOneRange`) is such a case; two calls, or two processes with adjacent
  regions, need not be (`ClientOverlap.OverlapEscapes`, `ClientOverlap.OtherProcessEscapes`).
- The documentation of `KphCopyVirtualMemory` promises the number of bytes copied. After a fault on
  the target side the code subtracts the source address from the faulting target address if the
  exception record names one, and otherwise reports the bytes before the interrupted block. A caller
  can rely on the number exactly when there is nothing to copy, or a single byte between addresses
  that agree modulo 2^32 (`CopyReport.ReportsRightExact`). If every target fault names the
  first byte that did not land, exactly when there is nothing to copy, or the addresses agree modulo
  2^32 and the length is at most 0xC000 and outside 0x201..0x3ff, so that a failed allocation cannot
  split it (`CopyReport.NamedReportsRightExact`). `CopyReport.WrongReport` is a run that copies no byte between
  two user buffers of one page and reports 1 MiB; `CopyReport.SilentReport` copies one and reports none.
- The page walk of `KpiReadVirtualMemoryUnsafe` wraps to page zero if the last page is the topmost
  one. It would go round forever only if every page of the address space were resident
  (`KernelRead.WalkEndsIff`); the non-canonical ones never are, so such a range is refused even when
  all its own pages are resident (`KernelRead.ReadKernelRange`). Modules mapped in whole pages never
  reach that page (`KernelRead.WholePagesStayBelow`).
- An application name with a blank, or a directory with a quote, does not survive the command line;
  a version suffix of more than 31 characters aborts the dumper (`CrashLine.CrashLineExact`).
- Payloads of 4 GiB and more are truncated by the 32-bit length (`Framing.FrameExact`).
- For a file on an unnamed device the name is assembled but Name.Buffer stays NULL
  (`ObjectName.QueryName`).

## Model

| member | source | states |
|---|---|---|
| ClientInvariant.Invariant | KSystemHacker/verify.c:244-489 | in every interleaving of any number of threads the mutex discipline, the key pair, the provenance of the Verified fields and every recorded answer stay consistent |
| ClientTheorems.KeysFrozen | KSystemHacker/verify.c:373-394 | once KeysGenerated is set both keys have the top bit set, differ, and are the same at the end of every continuation of the run |
| ClientTheorems.RetrievalsAgree | KSystemHacker/verify.c:429-443 | two retrievals on one client hand out the same key exactly when they asked for the same level |
| ClientTheorems.KeyLevels | KSystemHacker/verify.c:448-489 | for a user-mode caller a handed-out level-2 key validates at both levels and a level-1 key at level 1 and never at level 2, as long as the check sees Succeeded |
| ClientTheorems.ChecksExact | KSystemHacker/verify.c:448-489 | over every run a check by a kernel-mode caller or with the key 0xFFFFFFFF is let through; any other exactly if it saw the success and the keys and its key is one of the two at level 1 or the level-2 key at level 2 |
| ClientTheorems.VerifyStatusExact | KSystemHacker/verify.c:258-290 | a call passes exactly if no test fails, and otherwise has the status of the first test that does |
| ClientTheorems.RequiredLevelExact | KSystemHacker/thread.c:121-124 | an open asks for level 1 exactly if it wants no right outside the read mask, and otherwise for level 2 |
| ClientTheorems.Level1OpensExactly | KSystemHacker/process.c:105-121 | with a level-1 key an open passes the check exactly if it wants no right outside the read mask |
| ClientTheorems.ReadMasks | KSystemHacker/include/kphapi.h:188-191 | the two masks are made up of the reading, querying and waiting rights |
| ClientAlone.VerifyAlone | KSystemHacker/verify.c:258-316 | undisturbed, the first call stores its status and, if it passes, the four fields, and gives back the mutex; a later call changes nothing |
| ClientAlone.RetrieveAlone | KSystemHacker/verify.c:366-443 | undisturbed, a retrieval hands out the key of its level exactly if the client is verified for its process, id and routine, generating both keys first if there are none, and otherwise changes nothing |
| ClientAlone.CallCompletes | KSystemHacker/verify.c:244-489 | in every reachable state a thread that holds StateMutex, or any thread if it is free, completes its call by itself and leaves the mutex free |
| ClientAlone.ValidateAlone | KSystemHacker/verify.c:448-489 | undisturbed, a check answers by the flags and keys the client has, from any state |
| ClientTheorems.Level1OpensReadOnly | KSystemHacker/thread.c:121-137 | an open let through by a level-1 key asks for no right outside the read mask, for every access mask |
| ClientTheorems.Level1NeverWrites | KSystemHacker/process.c:105-121 | with the two real masks such an open never includes terminate, write-memory or set-context rights |
| ClientTheorems.VerificationConsistent | KSystemHacker/verify.c:301-316 | whenever StateMutex is free, even with overlapping calls, Succeeded agrees with VerificationStatus and a success has all four Verified fields from one passing call |
| ClientTheorems.GrantProvenance | KSystemHacker/verify.c:408-427 | in every interleaving each value a successful retrieval tested against was written by some passing verification |
| ClientTheorems.OneEntryOneRange | KSystemHacker/verify.c:258-316 | if one call got past the first test, every key went to the verified process and to a routine inside its committed image region |
| ClientTheorems.SerialInvariant | KSystemHacker/verify.c:258-316 | without overlapping calls the state stays in the one-verification regime |
| ClientTheorems.SerialOneEntry | KSystemHacker/verify.c:258-259 | without overlapping calls at most one call ever passes the first test |
| ClientTheorems.SerialWriteOnce | KSystemHacker/verify.c:303-314 | without overlapping calls the four Verified fields and Succeeded never change after a success is visible |
| ClientTheorems.SerialGrantsInside | KSystemHacker/verify.c:408-427 | without overlapping calls every key went to a routine inside the one verified region |
| ClientOverlap.ReachableExact | KSystemHacker/verify.c:408-427 | for every finite set of calls, from any processes, some interleaving hands a key to a request exactly when its process, its process id, a base at or below its routine, and a base and a size that together lie above it each come from some passing call |
| ClientOverlap.OnceExact | KSystemHacker/verify.c:258-316 | where the process determines its id, a request that calls made any number of times let through is also let through by some interleaving in which each call is made at most once |
| ClientOverlap.NothingEscapesExact | KSystemHacker/verify.c:408-427 | over every interleaving of a finite set of calls all keys go into a region verified for the process that gets them exactly when, for each process with a passing call, its regions cover every nonzero address from the lowest base over all passing calls up to the highest base plus the largest size |
| ClientOverlap.OneProcessExact | KSystemHacker/verify.c:408-427 | if all passing calls are of one process, nothing escapes exactly when no call passes, or the regions leave no gap between two bases and one passing call has both the highest base and the largest size |
| ClientOverlap.OverlapExact | KSystemHacker/verify.c:408-427 | two passing calls of one process, each made once, let a key reach exactly the routines from the lower base up to the higher base plus the larger size |
| ClientOverlap.OverlapEscapes | KSystemHacker/verify.c:423-427 | concrete overlapping calls for which a key reaches a routine outside both verified regions |
| ClientOverlap.OtherProcessEscapes | KSystemHacker/verify.c:413-427 | concrete calls of two processes for which one process gets a key at an address only the other one verified |
| CopyPlan.AttemptsTileAndCover | KSystemHacker/vm.c:120-289 | for every length and failure pattern the attempted blocks are adjacent, positive, never growing and inside the range; only the last can have a fault, and without one they reach the end |
| CopyPlan.PlanFacts | KSystemHacker/vm.c:89-297 | no block exceeds twelve pages, and the outcome is a success exactly when none of the attempted blocks had a fault, which holds whenever only pool allocation can fail |
| CopyOutcome.SuccessExact | KSystemHacker/vm.c:180-297 | the copy succeeds exactly if neither probe of a user-mode call raises and at every planned offset reading, mapping and writing go through; then all is copied |
| CopyOutcome.ReadProbeStops | KSystemHacker/vm.c:185-190 | a source range that the caller may not read fails with the code of the probe and leaves the target untouched |
| CopyOutcome.WriteProbeStops | KSystemHacker/vm.c:226-232 | a target range that the caller may not write fails with the code of the probe, unless reading or mapping the first block failed before; the target is untouched |
| CopyOutcome.BlockStops | KSystemHacker/vm.c:192-276 | past the probes, for every kind of fault in the last block, what is reported and what the target holds byte by byte |
| CopyOutcome.HalvedExact | KSystemHacker/vm.c:152-170 | halving stops at the first allocation that succeeds or the first size of at most 0x200, after exactly the attempts that failed |
| CopyOutcome.NextSize | KSystemHacker/vm.c:123-173 | the next block is what is left or as large as the last, except that between 0x201 and 0x3ff bytes without a pool buffer it is halved as often as allocations fail |
| BlockCopy.CopyVirtualMemory | KSystemHacker/vm.c:77-298 | the copy attempts exactly the planned blocks, succeeds exactly if no probe and none of their accesses fails, is stopped by a failing probe before anything is written, accesses source and target each in its own process, leaves in the target the source or the prefix before the last block, and gives back every attach, MDL, mapping and pool buffer on every way out |
| BlockCopy.NextBlock | KSystemHacker/vm.c:123-289 | one turn of the loop moves one block on along the plan, keeping the copied prefix, the pool accounting and the fit of the staging buffer, or ends with the outcome of the faulted block and everything released |
| BlockCopy.TryBlock | KSystemHacker/vm.c:180-241 | the protected region raises exactly if the block has a fault, with flags that identify the first fault and match the resources actually held; the source is accessed while its process is attached and the target while the other is; the target gets the block, the part that landed, or nothing |
| BlockCopy.ReadSource | KSystemHacker/vm.c:180-222 | the first half: probe, lock and map, or copy to the staging buffer |
| BlockCopy.WriteTarget | KSystemHacker/vm.c:223-240 | the second half: attach to the other process, probe and write |
| BlockCopy.ChooseStaging | KSystemHacker/vm.c:125-173 | block size and staging follow the plan for every pattern of failed allocations, the block fits its staging buffer, and every other pool allocation is left alone |
| BlockCopy.AllocateStaging | KSystemHacker/vm.c:152-170 | halving on failed allocations ends with a buffer at least as large as the block, never at size zero, after as many attempts as the plan has |
| BlockCopy.MappedBlockSpan | KSystemHacker/vm.c:89-121 | a mapped block spans at most 13 pages at any alignment |
| CopyReport.BytesCopied | KSystemHacker/vm.c:180-276 | when a forward memcpy faulted on byte e of the call, or reading the source failed at the block starting at e, the call is a partial copy and the target holds exactly the first e bytes of the source and is otherwise unchanged |
| CopyReport.NamedReportExact | KSystemHacker/vm.c:267-270 | if the fault names byte n of the call and e bytes were copied, the report is e exactly when the target lies the length of the earlier blocks behind the source, less n - e, modulo 2^32, and e fits 32 bits |
| CopyReport.UnnamedReportExact | KSystemHacker/vm.c:271-274 | if no address is named, exactly when no byte of the interrupted block landed |
| CopyReport.ReportsRightExact | KSystemHacker/vm.c:40-66 | all partial copies of a call, whether the fault names the first byte that did not land, a later one of the block or none, are reported with the number of bytes copied exactly when there is nothing to copy, or one byte between addresses that agree modulo 2^32 |
| CopyReport.NamedReportsRightExact | KSystemHacker/vm.c:120-276 | the same over the target-side faults that name the first byte that did not land: exactly when there is nothing to copy, or the addresses agree modulo 2^32 and the length is copied in one block whatever allocations fail |
| CopyReport.SilentReport | KSystemHacker/vm.c:271-274 | for every call of more than one byte a run that copies one byte and reports none |
| CopyReport.WrongReport | KSystemHacker/vm.c:269 | a run between two user buffers of one page that copies nothing and reports 0x100000 bytes copied |
| KernelRead.ValidateAddress | KSystemHacker/util.c:164-205 | the module loop accepts exactly the ranges that lie in one listed module, with 64-bit wrap-around |
| KernelRead.WalkEndsIff | KSystemHacker/vm.c:372-382 | the wrapping page walk leaves its loop exactly when the last page is not the topmost one or some page of the address space is not resident |
| KernelRead.ReadKernelRange | KSystemHacker/vm.c:365-384 | the function always ends, and reaches the copy exactly when the range lies in one module, every page it touches is resident and its last byte is not on the topmost page |
| KernelRead.WholePagesStayBelow | KSystemHacker/vm.c:365-382 | a range inside a module mapped in whole pages never touches the topmost page |
| KernelRead.TopPagePasses | KSystemHacker/util.c:164-205 | a module whose size is no multiple of a page lets a range on the topmost page pass the module check |
| CommandLine.ParseCommandLine | MiniDump/MiniDump.cpp:199-294 | the cursor-driven parser computes the option function of the whole text and accepts exactly with pid and tid, or in UI mode with a pipe |
| CommandLine.VersionExact | MiniDump/MiniDump.cpp:237-240 | the version is what follows the first "-v" of the name, and there is none exactly if "-v" occurs nowhere |
| OptionMeaning.KeywordExact | MiniDump/MiniDump.cpp:211-254 | each option is recognised exactly by its name, in upper or lower case |
| OptionMeaning.NumberMeaning | MiniDump/MiniDump.cpp:215-219 | a digit run after white space and a sign is read with saturation, and wrapped for a minus |
| OptionMeaning.PrefixedPointer | MiniDump/MiniDump.cpp:221-227 | the exception pointer is read in hexadecimal with 0x in either case; PlainPointer says the same without it |
| OptionMeaning.PrefixMeaning | MiniDump/MiniDump.cpp:223 | in base 16 a leading 0x belongs to the number exactly if a digit follows |
| OptionMeaning.NameMeaning | MiniDump/MiniDump.cpp:228-241 | of any name the first 63 characters are kept, with the version after "-v", and a version of more than 31 characters ends the process |
| OptionMeaning.TypeMeaning | MiniDump/MiniDump.cpp:242-245 | a dump type above 2 means 0 |
| OptionMeaning.PipeMeaning | MiniDump/MiniDump.cpp:246-253 | of any pipe the first 127 characters are kept |
| OptionMeaning.PlainOutMeaning | MiniDump/MiniDump.cpp:268-273 | an unquoted directory ends at the next blank and 259 characters are kept |
| OptionMeaning.QuotedOutMeaning | MiniDump/MiniDump.cpp:258-267 | a quoted directory ends at the next quote or with the text, and 259 characters are kept |
| OptionMeaning.NoOptions | MiniDump/MiniDump.cpp:112-130 | a text without a slash stores nothing, leaving no process, no thread and the name "Unknown", and is not accepted |
| OptionMeaning.Skipped | MiniDump/MiniDump.cpp:275-283 | unknown options and other words are skipped up to the next blank |
| CommandLine.ParseOptionAt | MiniDump/MiniDump.cpp:211-277 | one option is recognised, converted, truncated to its buffer and stored, with the cursor left right behind it |
| CrashLine.CrashLineExact | MiniDump/MiniDumpFilter.cpp:211-228 | for every stored configuration and crash, the started process recovers pid, tid, exception pointer, name, type and directory exactly when the name has no blank, its version suffix fits and the directory has no quote |
| CrashLine.CrashRoundTrip | MiniDump/MiniDump.cpp:199-294 | parsing undoes printing for well-formed names and directories, including blanks and slashes inside the quotes, and the version is what follows the first "-v" of the name |
| CrashLine.UiLineExact | MiniDump/MiniDump.cpp:1320-1322 | the process started with the user-interface line, program path in front, recovers pipe, name and type exactly when pipe and name have no blank and the version suffix fits |
| CrashLine.UiLineFits | MiniDump/MiniDump.cpp:1301-1322 | the user-interface line always fits its 512-character buffer |
| CrashLine.UiStarts | MiniDump/MiniDump.cpp:199-294 | whatever text the dump process was started with, if its parser returned, then the line it prints for the user interface fits, is accepted, and carries the pipe, name and type unchanged |
| CrashLine.StaysStorable | MiniDump/MiniDump.cpp:228-253 | no text makes the parser store a name or pipe with a blank in it or too long for its buffer, an unknown type, or a name whose version does not fit |
| CrashLine.OutStaysShort | MiniDump/MiniDump.cpp:254-273 | no text makes the parser store a directory longer than what follows the option name |
| CrashLine.ProgramSkipped | MiniDump/MiniDump.cpp:161-182 | the quoted program path in front is removed before parsing |
| CrashFilter.Filter.Init | MiniDump/MiniDumpFilter.cpp:53-108 | a first call stores the configuration and installs the handler, or fails without a program path, or ends the process if a path is too long; a later call changes nothing |
| CrashFilter.Filter.Shutdown | MiniDump/MiniDumpFilter.cpp:112-122 | the earlier handler comes back and the settings stay |
| CrashFilter.ConfiguredExact | MiniDump/MiniDumpFilter.cpp:60-99 | what a first call stores of each argument, the default dumper in the folder of the running program, and when it fails or ends the process |
| CrashFilter.ConfiguredIsStored | MiniDump/MiniDumpFilter.cpp:60-106 | whatever the arguments, a successful initialisation stores a name of 1 to 63 characters, a type up to 2 and paths that fit |
| CrashFilter.ArgumentsReachHelper | MiniDump/MiniDumpFilter.cpp:53-228 | the name, type and directory passed to a successful initialisation, and the crash, reach the dump process unchanged exactly when the name is not empty, has no blank and fits with its version, the type is known and the directory has no quote |
| CrashLine.BuildCrashLine | MiniDump/MiniDumpFilter.cpp:212-228 | the handler builds that line and it fits the 1024-character buffer |
| CrashLine.CrashLineFits | MiniDump/MiniDumpFilter.cpp:212-227 | no configuration and no crash overflow the command-line buffer |
| CrashLine.HexExact | MiniDump/MiniDump.cpp:1209 | the exception pointer is printed with sixteen digits and the pipe is named with the process id in eight, each denoting its number |
| CrashLine.BlankNameLost | MiniDump/MiniDump.cpp:228-234 | the name "Task Explorer" is not recovered |
| Digits.ParseUInt | TaskHelper/LinuxMain.cpp:442-466 | the loop returns the clamped value of the maximal digit run, the fallback exactly without a digit, and never exceeds 64 bits on the way |
| Digits.UIntExact | TaskHelper/LinuxMain.cpp:442-466 | after blanks and tabs a digit run is read, clamped to 2^64 - 1, and without one the fallback is the answer |
| Digits.ParseUndoesPrint | TaskHelper/LinuxMain.cpp:468-473 | the parser inverts the decimal printing of every 64-bit value, whatever follows it |
| Digits.PrintValue | TaskHelper/LinuxMain.cpp:562-564 | printed digits denote the printed number in base 10 and 16 |
| Digits.ValueExact | TaskHelper/LinuxMain.cpp:453-463 | each further digit counts as much as it says |
| Digits.PaddedValue | MiniDump/MiniDumpFilter.cpp:213-217 | leading zeros of a printed pointer do not change its value |
| Framing.Le32RoundTrip | TaskHelper/LinuxMain.cpp:152-176 | the length prefix is the number in base 256, least significant byte first |
| Framing.FrameExact | TaskHelper/LinuxMain.cpp:148-179 | a frame followed by anything decodes to its payload and the rest exactly when the payload is 1 byte to 100 MiB long, over payloads of every length |
| Framing.ReadExact | TaskHelper/LinuxMain.cpp:93-119 | for every split and EINTR placement exactly the requested bytes are taken in order, or fewer on failure, and success is certain when every byte can be transferred |
| Framing.WriteExact | TaskHelper/LinuxMain.cpp:121-142 | everything is sent in order, or on failure a proper prefix; success is certain when every byte can be transferred |
| Framing.RecvVariant | TaskHelper/LinuxMain.cpp:148-167 | success consumes exactly the length prefix and the payload and yields that payload; failure leaves the caller's variant alone |
| Framing.SendVariant | TaskHelper/LinuxMain.cpp:169-179 | success sends exactly one frame, failure a proper prefix of it; success is certain when every byte can be transferred |
| Framing.SendAll | TaskHelper/LinuxMain.cpp:169-179 | payloads sent one after the other put the concatenation of their frames on the stream, or on failure a proper prefix; success is certain when every byte can be transferred |
| Framing.ReceiveAll | TaskHelper/LinuxMain.cpp:148-167 | receiving such a stream, whole or cut short anywhere, gives a prefix of the payloads in order, and exactly those whose whole frame arrived when every byte can be transferred |
| DumpSession.Helper.MainLoop | TaskHelper/LinuxMain.cpp:1050-1086 | over every run of turns the traced threads are the attached list, without duplicates and all of the last attached process, plus those whose detach was refused; that list is what the last attach reported, if no detach followed it, whatever else was asked; the loop exits exactly on quit, signal, idle timeout or poll error, and then only refused threads remain |
| DumpSession.Helper.Serve | TaskHelper/LinuxMain.cpp:862-893 | an attach leaves the threads it reports, a detach none, and any other command keeps the session as it is |
| DumpSession.Helper.Attach | TaskHelper/LinuxMain.cpp:675-785 | a valid attach first detaches every thread of the previous session and replies with one line for each digit-named entry in order, marking exactly the threads now held; with no detach ever refused the reply is the one `Tried` gives; an invalid attach changes nothing |
| DumpSession.TriedExact | TaskHelper/LinuxMain.cpp:695-768 | every wanted thread has its line, marked exactly if seize, interrupt and wait succeed and no earlier line of the same thread is marked |
| DumpSession.WantedExact | TaskHelper/LinuxMain.cpp:695-698 | the entries are taken in order, each exactly if its name starts with a digit |
| DumpSession.TidExact | TaskHelper/LinuxMain.cpp:700 | any other number is cut to 32 bits and read as signed |
| DumpSession.TidOfPrinted | TaskHelper/LinuxMain.cpp:700 | a printed thread id is read back as that id |
| DumpSession.Helper.AttachThread | TaskHelper/LinuxMain.cpp:713-744 | a thread is kept exactly when seize, interrupt and wait all succeed, and is otherwise released again |
| DumpSession.Helper.DetachAll | TaskHelper/LinuxMain.cpp:667-673 | every attached thread is passed to PTRACE_DETACH once, in order, and the list is emptied; only refused threads stay traced |
| DumpSession.ReplayCounts | TaskHelper/LinuxMain.cpp:667-744 | in a log that alternates as the session keeps it, each thread was released as often as it was seized, less one while it is held |
| ProcReaders.ReadWholeFile | TaskHelper/LinuxMain.cpp:475-510 | for every sequence of short reads the result is a prefix of at most 8 MiB, the whole file if it fits, and within one chunk of the bound otherwise |
| ProcReaders.ReadLink | TaskHelper/LinuxMain.cpp:584-599 | the first 128 KiB of any link target after at most eight calls |
| ObjectName.QueryName | KSystemHacker/object.c:431-556 | the buffer ends up with the device name followed by the names from the furthest ancestor down to the file, exactly filling up to ReturnLength; success and the reported length are characterised exactly |
| ObjectName.CopyNames | KSystemHacker/object.c:532-547 | the backward walk writes the concatenated names in place and nothing else |
| ObjectName.NamesExact | KSystemHacker/object.c:532-547 | the name of a file comes last, behind those of its ancestors |
| ObjectName.ChainLength | KSystemHacker/object.c:506-518 | the forward walk measures them |
| ObjectName.RetrySucceeds | KSystemHacker/object.c:522-528 | a refusal by the chain-length check reports a larger length with which a retry succeeds |
| ObjectName.ReportedLeast | KSystemHacker/object.c:447-528 | the length a refusal reports is never more than what is enough |
| ObjectName.SucceedsExact | KSystemHacker/object.c:447-528 | a buffer suffices exactly if it holds the header, the device name with its terminator, and the full name |
| ObjectName.RetriesConverge | KSystemHacker/object.c:447-528 | from any length, following the reported lengths succeeds after at most three refusals |
| HandleEnum.EnumerateHandles | KSystemHacker/object.c:292-368 | exactly the longest fitting prefix of records is written, all handles are counted, ReturnLength is the needed size modulo 2^32 and the status is too-small exactly when some record did not fit |
| HandleEnum.Context.Callback | KSystemHacker/object.c:173-204 | one callback keeps the context an exact account of the handles seen so far |
| HandleEnum.RetryWritesAll | KSystemHacker/object.c:343-368 | a second call with the reported length writes every record |
| StackTrace.CaptureStackBackTrace | KSystemHacker/thread.c:259-307 | for all 32-bit counts, wrapping included, something is returned exactly when the wrapped skip and the capture count fit the depth and the walk goes deeper than the skip; it is then the walked frames from there on with their low-word sum |
| StackTrace.CopyFrames | KSystemHacker/thread.c:292-301 | the copy loop stays inside the walk and the output and hashes what it copied |
| StackTrace.HashIsSum | KSystemHacker/thread.c:292-301 | the hash is the low word of the sum of the addresses |
| StackTrace.ValidFlagsExact | KSystemHacker/thread.c:278-280 | only walks over kernel frames, or over user frames with the one flag for them, are let through |
| StackTrace.SkippedExact | KSystemHacker/thread.c:273 | one frame more than asked for is skipped, except that the largest count wraps to none |
| AsyncPrepare.Invariant | UpdUtil/UpdServ.cpp:109-173 | every interleaving of workers and requests keeps flags, mutex, file states and replies consistent |
| AsyncTheorems.OneLiveWorker | UpdUtil/UpdServ.cpp:389-409 | of two preparations the earlier one has completed and its worker has at most the unlock left to do |
| AsyncTheorems.PrepareStarts | UpdUtil/UpdServ.cpp:389-409 | an undisturbed request is refused exactly while the last preparation is active, and otherwise adds a fresh active one over its files |
| AsyncTheorems.StatusAnswers | UpdUtil/UpdServ.cpp:441-480 | an undisturbed status request adds one reply: the flags, then the result with its error text, or the path of the file being downloaded |
| AsyncTheorems.RunsToCompletion | UpdUtil/UpdServ.cpp:109-173 | from every reachable state with an idle handler a worker left alone completes, whatever its downloads answer |
| AsyncTheorems.AnswersAreEvents | UpdUtil/UpdServ.cpp:128-143 | what a preparation is judged by is what its downloads answered during the run |
| AsyncTheorems.RepliesExact | UpdUtil/UpdServ.cpp:441-480 | every status reply shows exactly one of active and completed; once completed the final result, and exactly for an error the text "Download failed: " or "Hash mismatch: " with the path of the changed file whose download ended it; while active the path of the last changed file the worker had come to, missing only if it had come to none |
| AsyncTheorems.CompletionPermanent | UpdUtil/UpdServ.cpp:145-172 | completion, the result and the file states of a completed preparation never change again |
| AsyncTheorems.ResultExact | UpdUtil/UpdServ.cpp:114-172 | a nonnegative result is the number of files that differ from what the scan left, each of them changed, downloaded with its manifest hash and now pending, and no changed file is left out unless its hash could not be computed; with a negative one a changed file could not be downloaded (-4) or its data hashes to something else (-3), the files before it are handled, and nothing from it on is touched |

## Left out

- BlockCopy.CopyVirtualMemory: the source is not changed by others during the copy; which bytes of an interrupted block landed is given by the fault.
- CopyReport.ReportsRightExact: an interrupted memcpy has written a prefix of its block, and a target fault that names an address names one in the rest of that block.
- ClientOverlap.NothingEscapesExact: the process determines its id, in the calls and in the request.
- KernelRead.ReadKernelRange: MmIsAddressValid is taken to refuse the first non-canonical page and to answer the same for a page throughout the walk; a fault of the copy itself and the user-mode buffer checks are not part of it.
- CrashLine.CrashLineExact: the dumper path has no quote, which no Windows path has; %p prints the sixteen digits of a 64-bit build.
- CommandLine.ParseCommandLine: the global option variables are one record passed in and out; of the blanks and decimal digits that wcstoul and wcstoull take, only the ASCII ones are.
- DumpSession.Helper.MainLoop: runs are finite; register sets, memory maps and the reported AttachErrno are not modelled, and the stack unwinder is taken to balance its own attaches. A thread id belongs to one process for good, so reuse of an id by another process is not modelled.
- Framing.RecvVariant: payloads are byte sequences; the serialisation of variants is not part of this model.
- ObjectName.QueryName: chains that loop through more than one file are excluded because the walk does not end on them, and so are names of 4 GiB, where the 32-bit lengths wrap.
- HandleEnum.EnumerateHandles: addresses do not wrap and writing the records does not fault; the buffer is a list of records rather than bytes.
- HandleEnum.Context.Callback: how a record is decoded from a handle table entry is not modelled; the records are given.
- CrashFilter.Filter.Init: the cleanup callback is stored but not run, and handlers that other code installs in between are not modelled.
- CrashLine.UiStarts: the path of the running program has no quote and at most 259 characters.
- AsyncTheorems.ResultExact: a pending file need not be on disk, because the result of writing it is ignored by the source.
- AsyncPrepare.Invariant: the scan before a preparation, synchronous preparation and the get, scan and download commands are not modelled.
- KphHashFile and KphVerifyFile: signature checking is not reached with NO_SECURITY defined.
- The key back-off delay, KpiVerifyClient's own copying of the signature, and the reference counting of kernel objects.
- The remaining dispatch tables and per-class queries of the driver, the dialogs, named-pipe security and upload of the crash dumper, and the web, JSON and apply functions of the updater.
