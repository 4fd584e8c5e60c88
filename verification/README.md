# A verified model of Redis core algorithms

The repository vendors the Redis server under `redis-stable/src`. This project models seven of its
components in Dafny, with the loops, in-place updates and protocols of the C code, and proves what the
code, its comments and its documentation promise of them.

* **CRC-64** (`CrcReference`, `CrcCombine`, `CrcSpeed`, over `Words`). The specification is the
  reflected CRC computed bit by bit. The cached tower of squared 64 by 64 bit matrices, both fast
  multiplications, `crc64_combine` and the sliced, multi-lane `crcspeed64little` are proved equal to
  it. A 64-bit word is a natural number below 2^64 with XOR defined bit by bit.
* **Append-only file** (`Aof*`, `Sds`, `Stdio`, `Decimal`). The manifest and its text; the log codec;
  the flush loop; and the rewrite protocol as a step machine of the server, its child and the disk, in
  which the process may crash between any two steps. INCR files are bytes: what is fed for plain calls
  and for MULTI ... EXEC blocks, flushed in any pieces, cut at any byte, and read by the model of the
  loader, which truncates an unfinished end. A database is the list of writes performed, and the
  content of a BASE file is such a list. The steps include failing calls, switching the log off and on,
  switching the deletion of history files off and on, and starts with the log on or off.
  `AofManifestFile` ties the manifest of the machine to its text on disk.
* **ACL command rules** (`Acl*`). Bitmap, first-argument table and rule text of a selector, over any
  command table with containers, subcommands and categories. The central idea is that a rule decides
  some cells (bits and first arguments), that the last rule that decides a cell wins, and that pruning
  removes only rules all of whose cells the new rule decides.
* **Lists and blocked clients** (`AdList`, `BlockedIndex`, `Blocked`). The doubly linked list is
  proved on the heap; the index of blocked clients uses lists of nodes with addresses as values, so
  that a client's dictionary can name a node and an iterator can be checked to follow only live nodes.
* **Background jobs** (`Bio`, `BioProofs`). Three workers, any number of submitting threads, and the
  main thread that drains and reads completions, with the condition variable and the lossy pipe. Every
  locked region and every unlocked action is one step.
* **Bit operations** (`Bits`, `Bitop`, `Popcount`, `Bitpos`, `BitRange`, `BitposCommand`, `Bitfield`,
  `BitfieldOverflow`, `BitfieldCommand`). Bytes are 8-bit vectors, numbers are integers with the
  64-bit wrap-around written out.
* **Hash slots** (`Glob`, `GlobMeaning`, `HashSlot`). The glob matcher, the slot of a key, and the
  slot inferred for a glob pattern.

System calls, clocks and the network are parameters: how many bytes a write accepts, whether a call
fails, what time it is, what re-running a client's command does.

## Hypotheses

* Crash safety (`CrashSafe`) is about runs in which
  * the flush before a rewrite wrote the whole buffer;
  * nothing is written behind the gap that a rolled-back short write leaves in a log that was opened
    without `O_APPEND`, other than what is rolled back again;
  * a rewrite with the log off finds no log open, or one that performs nothing;
  * the log is not switched on inside a transaction while a child of the time before is running;
  * a start finds a last INCR file that loads to its end once it has been truncated, or the first INCR
    name free, and deletes the history or remembers its numbers;
  * if that file ends inside an annotation, the first call after the start has an annotation too, and
    both fit the line buffer of the reader.

  Each of these conditions is needed: the next section names the members that say what happens without
  it, and for starts `StartNeedsCare` is an equivalence. Besides, `aof-load-truncated` is on, as it is
  by default, and unlinking works. The rename of the manifest is the commit point.
* The CRC uses one polynomial and 64 rows. The hash function of the slots is arbitrary.
* The commands of an ACL command table have numbers below the reserved bit.
* Running a blocked client's command again signals keys, and then blocks any clients that are free. What
  the visits find and do is a finite list; visits behind its end find nothing and do nothing, so that
  serving the ready keys ends.
* Database numbers have at most ten digits, times at most twenty-one characters.
* Only the main thread drains background workers.

## What does not hold, and when

Some promises fail for some inputs. The model follows the code. The members named here state exactly
when each promise holds, and give concrete inputs for which it does not.

* A rewrite whose flush before the fork left commands in the buffer applies them twice
  (`RewriteNeedsEmptyBuffer`, `LeftoverCommands`, `LeftoverAppliedTwice`).
* If starting the log fails after its file has been switched, the log is off and its file still open. A
  BGREWRITEAOF then keeps that file behind the new BASE, and its commands are applied twice
  (`OffRewriteNeedsClosedLog`, `FailedStartAppliesTwice`).
* A start that finds no INCR line hands out INCR number 1 again and continues a retired file of that
  name (`StartNeedsFirstName`, `ReloadWellFormed`, `RetiredLogReused`, `DeletedLogReused`). If history is
  kept, counting up to any forgotten number makes a retired name live, and a later deletion unlinks it
  (`OffStartNeedsHistory`, `StartNeedsHistory`, `HistoryForgotten`).
* The file of that name may also be torn. It is not truncated, since the manifest did not name it, and
  the first write behind it makes it impossible to load (`StartNeedsWholeFirst`, `UnnamedFirstBreaks`).
* A log that ends inside an annotation is not truncated, and the next command disappears in the
  annotation, unless it comes with one of its own; a log that ends inside a command of a transaction is
  cut behind the MULTI, and what follows is withheld (`AppendNeedsResumable`, `StartNeedsResumable`,
  `TornNoteSwallows`, `TornTransactionWithholds`).
* A log switched on inside a transaction while an older child runs takes over that child's snapshot, and
  may end without an open log (`LateStartNeedsNoChild`, `LateStartLosesWrite`, `LateStartLeavesNoLog`,
  `LateStartWithoutLog`).
* A manifest line is not read back if its name holds a single quote and needs no quoting otherwise, or
  if it has more than 1024 characters (`LineRoundTrip`, `ManifestRoundTrip`).
* A short write that ftruncate rolls back leaves the file offset behind the end. A log opened without
  `O_APPEND` then gets a gap of zeros, which cannot be loaded (`RunConserves`, `MisalignedFlush`,
  `RollBackLosesBytes`, `FlushNeedsAlignment`, `GapNeedsCare`, `GapCannotBeLoaded`).
* A first-argument rule with a blank or a quote in the argument is not rebuilt from the rule text
  (`FirstArgRebuilds`, `ArgNotRebuilt`). Describing such a selector stops the server on its own sanity
  checks, or silently allows another argument (`FirstArgPanics`, `DescribeBlank`, `DescribeOpenQuote`,
  `DescribeQuoted`). First arguments are kept in the case they were given and recorded in lower case, so
  the replay rebuilds the same set up to case, which is how it is used.
* A star does not match the empty string, and no pattern with more than 1000 groups of stars that have
  something behind them matches anything else (`MatchesExactly`, `StarAndNothing`).
* SET with saturation takes some numbers below the range for numbers above it (`NewSigned`,
  `PutUnsigned`, `SaturatesTheWrongWay`).

Two edge cases are part of the specification as the code has them: BITCOUNT counts nothing for two
negative indexes in the wrong order while BITPOS clamps them first and may still search the first byte
(`Counted`, `Found`), and BITPOS answers -1 for an existing empty string even when a zero is wanted.

## Model

| member | source | states |
|---|---|---|
| CrcReference.CrcConcat | redis-stable/src/crccombine.c:214-224 | the bitwise reflected CRC of A followed by B is the CRC of B started from the CRC of A, for all A and B |
| CrcReference.CrcSeed | redis-stable/src/crccombine.c:214-224 | the starting register contributes independently of the message: zero bits applied to it, XOR the CRC of the message |
| CrcReference.ZeroBitsXor | redis-stable/src/crccombine.c:225-250 | feeding zero bits is linear over XOR |
| CrcReference.ZeroBitsAdd | redis-stable/src/crccombine.c:225-250 | m and then n zero bits are m + n zero bits |
| CrcCombine.TimesXor | redis-stable/src/crccombine.c:47-112 | the XOR of the rows a vector selects is linear in the vector |
| CrcCombine.TimesCompose | redis-stable/src/crccombine.c:172-177 | multiplying every row of one matrix by another composes them, on every vector |
| CrcCombine.TimesSwitch | redis-stable/src/crccombine.c:47-112 | the 4-bit switch multiplication is the XOR of the selected rows, and reads no row past the last |
| CrcCombine.TimesVec2 | redis-stable/src/crccombine.c:123-164 | the two-lane unrolled multiplication is the XOR of the selected rows |
| CrcCombine.SquareDoubles | redis-stable/src/crccombine.c:172-177 | the square of the operator for n zero bits is the operator for 2n |
| CrcCombine.OneBitOperator | redis-stable/src/crccombine.c:192-200 | the matrix built from the polynomial is the operator for one zero bit |
| CrcCombine.CombineCache.Square | redis-stable/src/crccombine.c:172-177 | writes exactly one row of the cache: the operator for twice the zero bits |
| CrcCombine.CombineCache.Init | redis-stable/src/crccombine.c:192-212 | row k of the cache becomes the operator for 2^k zero bytes |
| CrcCombine.CombineCache.Combine | redis-stable/src/crccombine.c:225-250 | combining crc(A), crc(B) and the length of B gives the bitwise CRC of A followed by B, for all A and B of 64-bit length |
| CrcCombine.LengthSplit | redis-stable/src/crccombine.c:235-245 | one bit of the length is worth 8 * 2^k zero bits, the rest one level up |
| CrcCombine.CombineIsConcatenation | redis-stable/src/crccombine.c:214-224 | the CRC of a concatenation in terms of the CRCs of its parts, for every polynomial |
| CrcSpeed.InitTables | redis-stable/src/crcspeed.c:47-68 | table k holds, for every byte, the register after that byte and k zero bytes |
| CrcSpeed.CrcOfWord | redis-stable/src/crcspeed.c:130-143 | bytes fed one by one act as one XOR of the little-endian word followed by zero bits |
| CrcSpeed.Step8 | redis-stable/src/crcspeed.c:130-143 | eight table lookups feed eight bytes to the bitwise CRC |
| CrcSpeed.MergeSegments | redis-stable/src/crcspeed.c:144-178 | merging adjacent segments with the combine operation is the CRC of both |
| CrcSpeed.Crc64Little | redis-stable/src/crcspeed.c:179-253 | the three-lane, two-lane and bytewise paths compute the bitwise CRC for every buffer, address and cutoff |
| AofManifest.MarkRewrittenConserves | redis-stable/src/aof.c:505-535 | moving rewritten INCR files to history keeps the multiset of files |
| AofManifest.NewBaseConserves | redis-stable/src/aof.c:439-458 | a new BASE adds exactly one file, the old one goes to history |
| AofManifest.NewIncrConserves | redis-stable/src/aof.c:467-477 | a new INCR adds exactly one file |
| AofManifest.ServerManifest.GetNewBaseFileNameAndMarkPreAsHistory | redis-stable/src/aof.c:439-458 | the lists, entries and counters after the call, with the old BASE at the head of the history |
| AofManifest.ServerManifest.GetNewIncrAofName | redis-stable/src/aof.c:467-477 | the new entry is at the tail, with the next number and the given start offset |
| AofManifest.ServerManifest.GetLastIncrAofName | redis-stable/src/aof.c:486-498 | the last INCR name, a new one only if there is none |
| AofManifest.ServerManifest.MarkRewrittenIncrAofAsHistory | redis-stable/src/aof.c:505-535 | all INCR entries but the one being written move to history in order, retyped, keeping names and offsets |
| AofCrashSafety.NewBaseWellFormed | redis-stable/src/aof.c:439-458 | at most one BASE with the current number, INCR numbers strictly increasing up to the current one: kept by a new BASE |
| AofCrashSafety.NewIncrWellFormed | redis-stable/src/aof.c:467-477 | the same, kept by a new INCR |
| AofCrashSafety.MarkRewrittenWellFormed | redis-stable/src/aof.c:505-535 | the same, kept by moving to history |
| AofCrashSafety.ReloadWellFormed | redis-stable/src/aof.c:347-376 | reloading keeps it if and only if no retired INCR number exceeds those still named, since only INCR lines restore the counter |
| AofManifestText.LineRoundTrip | redis-stable/src/aof.c:117-139 | a manifest line is read back, end offset only with a start offset, if and only if the name is quoted or has no single quote |
| AofManifestText.BareQuoteExample | redis-stable/src/aof.c:117-139 | a concrete name that the server writes and cannot read |
| AofManifestText.LineLoads | redis-stable/src/aof.c:284-346 | a line of more than 1024 characters is refused, a shorter one is parsed and filed |
| AofManifestText.LoadManifest | redis-stable/src/aof.c:264-379 | the loader as the fold of its lines, with every error it reports |
| AofManifestLines.AddLineExact | redis-stable/src/aof.c:347-376 | a second BASE, an INCR number that does not rise, and another type are refused, each with its error; any other line is filed |
| AofManifestLines.LineSays | redis-stable/src/aof.c:322-346 | a line that is read names a file, a number other than zero and a type; offsets it does not give are unset |
| AofManifestLines.FieldRefused | redis-stable/src/aof.c:324-329 | a file name is refused if and only if it has a slash or a backslash in it, and nothing else is refused by its value |
| AofManifestLines.TrimExact | redis-stable/src/aof.c:309-313 | blanks, tabs, carriage returns and newlines around a line do not count |
| AofManifestLines.LoadExact | redis-stable/src/aof.c:264-379 | a manifest is accepted if and only if every line can be read, there is at most one BASE, INCR numbers rise and there are no other types; its lines are then in their lists, in order |
| AofManifestText.FileServerLines | redis-stable/src/aof.c:347-376 | filing the lines of a well-formed manifest rebuilds it, its order and its counters |
| AofManifestText.LoadedReadable | redis-stable/src/aof.c:284-346 | whatever loads has readable names and short lines |
| AofManifestText.ManifestRoundTrip | redis-stable/src/aof.c:200-228 | the text of every manifest the server holds is read back exactly if and only if every name is readable and every line fits |
| AofManifestFile.HeldIsServerLines | redis-stable/src/aof.c:200-228 | the lines that the manifest class holds are such lines, with readable names, whenever its abstract state is in order |
| AofManifestFile.PersistedIsReload | redis-stable/src/aof.c:200-400 | formatting what the class holds and loading the text gives exactly the abstract reload that the crash machine uses |
| Sds.ReprReads | redis-stable/src/sds.c:958-990 | a quoted string is read back as the string, for every byte string |
| Sds.SplitJoin | redis-stable/src/sds.c:1054-1160 | arguments without blanks or quotes survive joining and splitting |
| Sds.SplitSame | redis-stable/src/sds.c:1054-1160 | a text is read back as one argument equal to itself if and only if it has no blank and no quote |
| Sds.SplitQuoted | redis-stable/src/sds.c:1054-1160 | a quoted argument followed by others is split off unchanged |
| Sds.SplitDropsQuote | redis-stable/src/sds.c:1054-1160 | no argument of an unescaped line contains a single quote |
| Decimal.AtoiOfDec | redis-stable/src/aof.c:321-336 | a printed number is read back, whatever text follows it |
| AofCodec.CatCommand | redis-stable/src/aof.c:1356-1379 | appends exactly the encoding of the command |
| AofCodec.ReadArg | redis-stable/src/aof.c:1594-1623 | one argument, or why it cannot be read, and where the next one starts |
| AofCodec.ReadItem | redis-stable/src/aof.c:1572-1623 | one annotation or command, or why it cannot be read: the end of the file, a read error before it, a bad format |
| AofCodec.LoadFile | redis-stable/src/aof.c:1557-1720 | the whole loading loop: the commands executed, transactions included, the final status, and the file after the truncation of an unfinished end |
| AofCodecProofs.ItemReads | redis-stable/src/aof.c:1557-1623 | every encoded item is read back, whatever follows it |
| AofCodecProofs.CutItem | redis-stable/src/aof.c:1557-1623 | a command cut at any byte is a short read, never a format error; a cut annotation is skipped |
| AofCodecProofs.LoadPrefix | redis-stable/src/aof.c:1557-1720 | loading any byte prefix of a log executes exactly the commands wholly inside it, except those in an open MULTI, never reports a format error, and leaves the valid length and the position before the MULTI that the truncation uses |
| AofCodecProofs.LoadWhole | redis-stable/src/aof.c:1557-1720 | loading the encoding of any command list runs that list, and is unfinished only if it leaves a MULTI open |
| AofCodecProofs.LoadUnknown | redis-stable/src/aof.c:1625-1634 | a command that is not in the table ends the loading behind those before it, whatever follows, and the file is not cut |
| AofLog.InterpretLog | redis-stable/src/aof.c:1408-1447 | the commands of a log, its SELECTs included, perform the writes of its entries, each in its own database, those of an open transaction excepted |
| AofLog.TornLogReplays | redis-stable/src/aof.c:1557-1720 | for every log and every byte count: the status, the client, the writes performed and the file left by loading that many bytes of it |
| AofLog.WholeLogReplays | redis-stable/src/aof.c:1557-1720 | a log that ends outside of a transaction is loaded whole and kept unchanged |
| AofLog.FeedGrows | redis-stable/src/aof.c:1408-1447 | whatever was selected and annotated, what is fed for plain calls and MULTI ... EXEC blocks replays to exactly their writes and leaves no transaction open |
| AofLog.AppendNeedsResumable | redis-stable/src/aof.c:1408-1447 | for every log, cut and first write: appended after a restart, with its annotation if it has one, it is read back behind what was loaded if and only if the file ended neither inside a command of an open transaction nor inside an annotation, or ended inside an annotation and the write brings one that fits the line |
| AofLog.ResumedLog | redis-stable/src/aof.c:1670-1720 | a file of which the rest loads to its end is, once truncated, a log of the writes that were performed, perhaps with a piece of an annotation behind it |
| AofLog.LoadTwice | redis-stable/src/aof.c:1670-1720 | loading the truncated file performs the same writes again |
| AofLog.ContinuableIs | redis-stable/src/aof.c:1670-1720 | what is left of a torn file after loading loads to its end if and only if it could be continued or ended inside an annotation |
| AofLog.FeedJoined | redis-stable/src/aof.c:1389-1447 | what is fed behind a piece of an annotation, if it begins with an annotation that fits, is a log that replays to the same writes |
| AofTornAppend.TornNotKept | redis-stable/src/aof.c:1572-1623 | a write with its annotation, behind a command cut at any byte, is not read back: another command takes it, or its beginning |
| AofTornAppend.OpenMultiNotKept | redis-stable/src/aof.c:1572-1720 | no write behind an open transaction is read back |
| AofTornAppend.AppendNeedsWhole | redis-stable/src/aof.c:1572-1720 | behind a file that performs nothing and is not truncated: for a file that loads to its end, exactly which first writes are read back; for any other, one that is not |
| AofCrashSafety.FeedExtends | redis-stable/src/aof.c:1408-1447 | feeding calls extends what the log replays to by exactly their writes, and loses no byte, behind a piece of an annotation as well |
| AofCrashSafety.FlushAccounted | redis-stable/src/aof.c:1235-1320 | a flush of any number of bytes, rolled back or not, keeps file plus buffer equal to what was fed, and the file a torn log |
| AofCrashSafety.OpenRecovers | redis-stable/src/aof.c:1740-1863 | with the open log as the last file, recovery is what was there before it and the entries wholly written to it |
| AofCrashSafety.RecoverFrame | redis-stable/src/aof.c:1740-1863 | files that the manifest does not name do not matter to recovery |
| AofCrashSafety.ForkKeeps | redis-stable/src/aof.c:2544-2612 | the fork of a rewrite keeps the invariant |
| AofCrashSafety.SwitchIncrKeeps | redis-stable/src/aof.c:803-867 | switching to a new INCR file keeps the invariant |
| AofCrashSafety.RenameBaseKeeps | redis-stable/src/aof.c:2722-2746 | renaming the new BASE keeps the invariant |
| AofCrashSafety.CommitKeeps | redis-stable/src/aof.c:2779-2810 | writing the new manifest, the commit point, keeps the invariant: BASE is the snapshot of the fork, the log behind it is what came after |
| AofCrashSafety.CommitFailsKeeps | redis-stable/src/aof.c:2784-2796 | so does failing to write it |
| AofCrashSafety.RestartKeeps | redis-stable/src/aof.c:1740-1863 | so does a crash at any point and the loading of the files that are there, torn ends cut off, cut annotations left |
| AofCrashSafety.RestartOffKeeps | redis-stable/src/aof.c:726-733 | so does a start with the log off, whatever database it starts with |
| AofCrashSafety.BootOpenKeeps | redis-stable/src/aof.c:726-781 | so does opening the log on start, with a first BASE if there is none |
| AofCrashSafety.DeleteHistoryKeeps | redis-stable/src/aof.c:681-705 | so does deleting a history file, at any time and in part |
| AofCrashSafety.StepKeeps | redis-stable/src/aof.c:726-2861 | every step of the server, the child, the switches of the log and of history deletion, or a crash keeps the invariant, under the conditions listed in the hypotheses |
| AofCrashSafety.CrashSafe | redis-stable/src/aof.c:2544-2861 | in every run and at every crash point all files that the manifest on disk names are there, each once, and loading their bytes gives exactly the database up to the last command wholly written, an open transaction excepted; with an empty buffer, all of memory |
| AofRewriteLimits.RewriteNeedsEmptyBuffer | redis-stable/src/aof.c:2544-2612 | from every state a rewrite recovers memory and, behind it, what the rest of the buffer performs; so it is right if and only if that can be loaded and performs nothing |
| AofRewriteLimits.LeftoverCommands | redis-stable/src/aof.c:1408-1447 | which is, if whole entries were left, exactly when no command is among them |
| AofRewriteLimits.OffRewriteNeedsClosedLog | redis-stable/src/aof.c:518-535 | a rewrite with the log off is right if and only if no log is open, as after a start that failed, or its last INCR file performs nothing; otherwise those writes are applied twice |
| AofRewriteLimits.FlushNeedsAlignment | redis-stable/src/aof.c:1235-1320 | behind a rolled-back short write, without append mode, a flush keeps the bytes if and only if none stays or they are zeros |
| AofRewriteLimits.GapNeedsCare | redis-stable/src/aof.c:1235-1320 | if whole entries are in the file, such a flush leaves it unchanged when nothing stays, and makes it impossible to load otherwise |
| AofRewriteLimits.StartNeedsFirstName | redis-stable/src/aof.c:726-781 | a whole start, its deletions included, recovers memory if and only if the manifest names an INCR file, or the first INCR name is neither waiting for deletion nor holding a command |
| AofRewriteLimits.StartOffIsRight | redis-stable/src/aof.c:726-733 | a start with the log off always keeps what is recovered |
| AofRewriteLimits.StartNeedsResumable | redis-stable/src/aof.c:1670-1720 | the first write after a start, with or without its annotation, is kept if and only if the last INCR file could be continued, or ended inside an annotation and the write brings one that fits |
| AofRewriteLimits.StartNeedsWholeFirst | redis-stable/src/aof.c:726-781 | the same of a start that finds no INCR line and appends to a file that was not truncated: exactly which first writes are kept if that file loads to its end, and one that is not if it does not |
| AofRewriteFailures.CountingUnlinks | redis-stable/src/aof.c:681-705 | a careful run that counts up to a retired number and then enables deletion ends with a file that the manifest names and that is not there |
| AofRewriteFailures.OffStartNeedsHistory | redis-stable/src/aof.c:347-376 | every careful run behind a start with the log off recovers what is owed if and only if the start deletes the history or remembers its numbers; otherwise one of them unlinks a live file |
| AofRewriteFailures.StartNeedsHistory | redis-stable/src/aof.c:347-376 | the same behind a start with the log on that finds files it can go on with |
| AofRewriteFailures.StartNeedsCare | redis-stable/src/aof.c:726-781 | every careful run behind a start with the log on keeps its promise if and only if the start is careful: the last INCR file loads to its end once truncated, or the first name is free and its file loads to its end and performs nothing, and no number is forgotten |
| AofRewriteFailures.LateStartNeedsNoChild | redis-stable/src/aof.c:1035-1063 | if the log is switched on in a transaction while an older child runs, its commit recovers the snapshot of that child and what a stale temporary file performs, whatever memory is |
| AofRewriteFailures.LateStartLeavesNoLog | redis-stable/src/aof.c:2747-2861 | if no log was open then, the server ends with the log on and none open: nothing it executes can be written |
| AofRewriteExamples.LeftoverAppliedTwice | redis-stable/src/aof.c:2544-2612 | a reachable server and one buffered write that a rewrite applies twice |
| AofRewriteExamples.FailedStartAppliesTwice | redis-stable/src/aof.c:1054-1057 | a reachable server on which starting the log failed, and whose BGREWRITEAOF applies every write twice |
| AofRewriteExamples.RetiredLogReused | redis-stable/src/aof.c:726-781 | a reachable server whose start continues a file that waits for deletion |
| AofRewriteExamples.DeletedLogReused | redis-stable/src/aof.c:681-705 | the same when the file is gone and the manifest still names it |
| AofRewriteExamples.GapCannotBeLoaded | redis-stable/src/aof.c:1261-1272 | a reachable server whose log gets a gap of zeros and cannot be loaded |
| AofRewriteExamples.TornTransactionWithholds | redis-stable/src/aof.c:1670-1720 | a reachable server whose log is torn inside a transaction: no first write after its restart is kept |
| AofRewriteExamples.TornNoteSwallows | redis-stable/src/aof.c:1389-1447 | a reachable server whose log is torn inside an annotation: the first write after its restart is kept if and only if it has an annotation |
| AofRewriteExamples.UnnamedFirstBreaks | redis-stable/src/aof.c:726-781 | a reachable server that starts rightly behind an unnamed first INCR file, and cannot be loaded after its first write, whatever that is |
| AofRewriteExamples.HistoryForgotten | redis-stable/src/aof.c:347-376 | a reachable server whose history a start that keeps it forgets |
| AofRewriteExamples.LateStartLosesWrite | redis-stable/src/aof.c:1035-1063 | a reachable server on which a late start recovers one of its two writes |
| AofRewriteExamples.LateStartWithoutLog | redis-stable/src/aof.c:1035-1063 | a reachable server on which a late start recovers everything and leaves no log |
| AofFlush.Aof.AofWrite | redis-stable/src/aof.c:1108-1125 | the bytes accepted before an error, -1 if there are none, and the file after them, for every sequence of short writes and interruptions |
| AofFlush.Aof.Flush | redis-stable/src/aof.c:1146-1354 | it exits if and only if the policy is always and a write did not complete, or an fsync was due (also with an empty buffer) and failed; file, buffer, sizes and sync offset in every case, those of an exit included; a forced write, and one postponed for two seconds, is not postponed; and what is conserved |
| AofFlush.Aof.WriteOut | redis-stable/src/aof.c:1190-1354 | the same of the part behind the decision to write |
| AofFlush.Aof.TryFsync | redis-stable/src/aof.c:1322-1354 | when the flush syncs, and up to which offset |
| AofFlush.FlushConserves | redis-stable/src/aof.c:1235-1320 | from an aligned log every flush keeps file prefix plus buffer equal to the bytes fed; it stays aligned unless it rolls a short write back without append mode |
| AofFlush.MisalignedFlush | redis-stable/src/aof.c:1235-1320 | after that, bytes that stay in the file are conserved if and only if they are zeros, or are rolled back |
| AofFlush.FlushExact | redis-stable/src/aof.c:1235-1320 | from a log in order, aligned or behind a gap, a flush conserves the bytes if and only if it is sound |
| AofFlush.RunConserves | redis-stable/src/aof.c:1146-1320 | over every run from an aligned log, file plus buffer is at every point what was fed if and only if every flush is sound: in append mode, or with nothing, zeros or a rolled-back write behind a gap |
| AofFlush.AppendModeConserves | redis-stable/src/aof.c:753-762 | conservation over every run of a log opened in append mode |
| AofFlush.RollBackLosesBytes | redis-stable/src/aof.c:820-826 | a concrete loss on a log opened without append mode |
| AclSelector.Selector.SetCommandBit | redis-stable/src/acl.c:558-567 | one bit changes; writing a zero clears the ALLCOMMANDS flag; a number outside the bitmap changes nothing |
| AclSelector.Selector.ChangePerm | redis-stable/src/acl.c:630-644 | the bits of a command and of its subcommands change, its first arguments are forgotten, nothing else |
| AclSelector.Selector.SetBitsForCategory | redis-stable/src/acl.c:652-666 | the same for every command and subcommand of a category |
| AclSelector.Selector.AddAllowedFirstArg | redis-stable/src/acl.c:943-969 | an argument is added unless it is there in any case |
| AclTable.CoversDecides | redis-stable/src/acl.c:569-571 | a rule that a later one covers decides nothing that the later one does not decide |
| AclReplay.AfterReplays | redis-stable/src/acl.c:616-626 | adding a rule to the pruned log changes the replay exactly as applying the rule does |
| AclReplay.AfterPruned | redis-stable/src/acl.c:616-626 | the log never holds a rule that a later one covers |
| AclReplay.RebuiltSame | redis-stable/src/acl.c:671-704 | replaying a pruned log leaves the log itself unchanged |
| AclRules.RemoveCommandRule | redis-stable/src/acl.c:572-614 | the splices inside any text, words or not, are the removal of its covered stretches |
| AclRules.RemovedWords | redis-stable/src/acl.c:572-614 | on words, that is the filtering by "same rule or under it", with single blanks between them |
| Acl.UpdateCommandRules | redis-stable/src/acl.c:618-626 | for any text: the covered stretches go, the rule in lower case is added |
| Acl.RulesAfterText | redis-stable/src/acl.c:618-626 | the text of a log becomes the text of the pruned log with the new rule |
| Acl.KeepTokens | redis-stable/src/acl.c:572-614 | filtering the words of the text is filtering the log |
| Acl.AgreeAfter | redis-stable/src/acl.c:616-666 | bitmap and first arguments agree with the replay after an accepted rule |
| Acl.ParseKnown | redis-stable/src/acl.c:1127-1204 | an accepted rule is about a known command, subcommand, category or first argument |
| Acl.CommandApplies | redis-stable/src/acl.c:630-644 | what allowing or blocking a command changes |
| Acl.SubcommandApplies | redis-stable/src/acl.c:630-644 | what allowing or blocking a subcommand changes |
| Acl.CategoryApplies | redis-stable/src/acl.c:652-666 | what allowing or blocking a category changes |
| Acl.FirstArgApplies | redis-stable/src/acl.c:943-969 | what allowing a first argument changes |
| AclCommands.ParseName | redis-stable/src/acl.c:1127-1204 | a rule is recorded under its text in lower case, however it was written |
| AclCommands.SetSelector | redis-stable/src/acl.c:1035-1210 | for every operation, in any case: allcommands and +@all leave everything allowed, nocommands and -@all nothing, both with an empty rule text; key and channel words and patterns leave commands alone; anything else without a sign or mark is EINVAL; a rule that the operation spells is applied to bitmap, first arguments and rule text together, and which rules give ENOENT, ECHILD and EINVAL is said from their letters; a refused operation leaves no trace; text and permissions go on agreeing if the first argument has no blank and no quote |
| AclWords.LookupNames | redis-stable/src/acl.c:906-912 | a lookup finds a command or a subcommand with its container by its name in any case, and nothing else |
| AclWords.RuleVerdict | redis-stable/src/acl.c:1117-1203 | the error of every rule, from its letters: unknown names, first arguments of subcommands, empty ones, and what a container does not have |
| AclWords.SpelledIsParsed | redis-stable/src/acl.c:1117-1203 | an operation spells at most one rule of the table, and that is the one it is taken for |
| AclWords.ParseSpells | redis-stable/src/acl.c:1117-1203 | conversely, a rule is accepted only if the operation spells it |
| AclCommands.GoodAfter | redis-stable/src/acl.c:618-666 | applying a rule to the bitmap and adding it to the text, pruned, keep agreeing |
| AclDescribe.ParseText | redis-stable/src/acl.c:671-704 | a recorded rule is read back as itself |
| AclDescribe.ReplayRules | redis-stable/src/acl.c:780-788 | replaying any words accepts all if and only if each has a meaning, every cell is then what the last deciding word says, and a recorded log is rebuilt |
| AclDescribe.SamePerms | redis-stable/src/acl.c:796-808 | selectors with the same log and reserved bit have the same bitmap and first arguments |
| AclDescribe.DescribeSelectorCommandRules | redis-stable/src/acl.c:758-811 | for every selector: the text of the description, and its sanity checks stop the server if and only if the rule text cannot be split, a piece is refused, or the pieces give another bitmap |
| AclDescribe.GoodDescribes | redis-stable/src/acl.c:758-811 | which never happens while text and permissions agree; every cell is then rebuilt |
| AclDescribe.DescribeAfter | redis-stable/src/acl.c:758-811 | after any sequence of operations on a new selector: exactly when describing it stops the server; never, if no first argument has a blank or a quote |
| AclDescribe.RecomputeCommandBits | redis-stable/src/acl.c:671-704 | for any new command table: accepted exactly when every recorded piece is, every cell is then what the pieces give in the new table; if the table knows all rules the text stays and everything agrees again; if it did not change, nothing does |
| AclDescribe.SameVerdicts | redis-stable/src/acl.c:1696-1721 | the ALLCOMMANDS flag changes no verdict |
| AclDescribe.MayRunExactly | redis-stable/src/acl.c:1696-1721 | a command may run if and only if the last rule that decides it allows it, or the last one that decides its first argument does |
| AclDescribe.LastRuleWins | redis-stable/src/acl.c:671-704 | replaying a log leaves in a cell what the last rule that decides it says |
| AclDescribe.FirstArgRebuilds | redis-stable/src/acl.c:1176-1189 | whatever selector a first-argument rule is added to, its rule text rebuilds it if and only if the argument has no blank and no quote |
| AclDescribe.FirstArgPanics | redis-stable/src/acl.c:758-811 | describing it then stops the server exactly when the pieces of the rule cannot be split, one is refused, or one changes the bitmap |
| AclDescribe.ArgNotRebuilt | redis-stable/src/acl.c:671-704 | otherwise the replay never allows that argument |
| AclDescribe.DescribeBlank | redis-stable/src/acl.c:758-811 | a concrete argument with a blank that stops the server |
| AclDescribe.DescribeOpenQuote | redis-stable/src/acl.c:758-811 | a concrete argument with an open quote that stops the server |
| AclDescribe.DescribeQuoted | redis-stable/src/acl.c:758-811 | a concrete argument with quotes that is replaced by another one |
| AclIds.CommandIds.GetCommandID | redis-stable/src/acl.c:1532-1557 | every name keeps one number, different names have different numbers, none has the reserved bit |
| AdList.List.LinkNodeHead | redis-stable/src/adlist.c:90-103 | the list as a sequence, and all its links, after linking at the head |
| AdList.List.LinkNodeTail | redis-stable/src/adlist.c:123-134 | the same at the tail |
| AdList.List.AddNodeHead | redis-stable/src/adlist.c:76-85 | a new node with the value is in front of the others |
| AdList.List.AddNodeTail | redis-stable/src/adlist.c:110-119 | a new node with the value is behind the others |
| AdList.List.InsertNode | redis-stable/src/adlist.c:136-163 | the same before or behind a node |
| AdList.List.UnlinkNode | redis-stable/src/adlist.c:179-193 | the same after unlinking a node, whose own links are cleared |
| AdList.List.RotateTailToHead | redis-stable/src/adlist.c:348-360 | the tail becomes the head |
| AdList.List.RotateHeadToTail | redis-stable/src/adlist.c:363-375 | the head becomes the tail |
| AdList.List.Join | redis-stable/src/adlist.c:379-396 | the other list is appended and left empty |
| AdList.List.Index | redis-stable/src/adlist.c:333-345 | the node at an index, negative ones from the tail, null outside |
| AdList.SearchKey | redis-stable/src/adlist.c:308-326 | the first matching node, or null if there is none |
| AdList.DeleteRejected | redis-stable/src/adlist.c:242-253 | an iteration that deletes the node it was handed visits every node once, in order |
| BlockedIndex.ExactlyOnce | redis-stable/src/blocked.c:387-438 | a client is in the list of a key exactly once if and only if the key is in its dictionary, which names that very node |
| BlockedIndex.AddKeeps | redis-stable/src/blocked.c:398-417 | adding a key to both sides keeps the index |
| BlockedIndex.ReleaseKeeps | redis-stable/src/blocked.c:535-568 | releasing a key on both sides keeps the index, and no list is left empty |
| BlockedIndex.CountedRelease | redis-stable/src/blocked.c:547-565 | the count of clients that wake on a missing key stays equal to their number in the list |
| BlockedIndex.UnlinkDrops | redis-stable/src/blocked.c:541-547 | unlinking the node that the dictionary names drops exactly that client |
| Blocked.TypesAfter | redis-stable/src/blocked.c:74-86 | one client blocking or unblocking moves its own counter by one, so every counter stays the number of blocked clients of its type |
| Blocked.AwaitedFound | redis-stable/src/blocked.c:475-522 | a key that a client of the type waits for passes the quick returns |
| Blocked.Server.BlockForKeys | redis-stable/src/blocked.c:387-438 | the client goes once to the end of the list of each key; index, counts and counters stay exact |
| Blocked.Server.ReleaseBlockedEntry | redis-stable/src/blocked.c:535-568 | one key is released on both sides, with its count; the asserts hold |
| Blocked.Server.UnblockClientWaitingData | redis-stable/src/blocked.c:442-456 | the client leaves every list, and nobody else does |
| Blocked.Server.UnblockClient | redis-stable/src/blocked.c:173-215 | the state of the client, the counters, the lists and the queue after unblocking |
| Blocked.Server.QueueClientForReprocessing | redis-stable/src/blocked.c:162-169 | a client is in the queue at most once |
| Blocked.Server.SignalKeyAsReady | redis-stable/src/blocked.c:475-522 | a key becomes ready exactly if it is not ready yet, somebody is blocked for what its object may serve or for a module, and the key has waiters (on its deletion, some that wake on it); so no awaited key is skipped |
| Blocked.Server.UnblockClientOnKey | redis-stable/src/blocked.c:659-701 | the client leaves every list, its command runs again and may block any clients that are free, each once and at the tails; the client itself is blocked again or queued; every other client and the new lists are as these blocks say; only signalled keys become ready, and every signalled key that somebody else waits for does |
| Blocked.Server.BlockAll | redis-stable/src/blocked.c:387-438 | blocking any clients: the first block of each free client counts, it goes to the end of its lists, and nobody else changes |
| Blocked.Server.HandleClientsBlockedOnKey | redis-stable/src/blocked.c:581-617 | one pass visits the clients that were there at the start, each once, in blocking order, following only live nodes, whoever the commands block; visit by visit, a client that wakes for what the visit found has run its command again and is blocked as the command says, or out of every list and queued, and one that does not wake changes nothing; of the others, the blocked ones are left alone |
| Blocked.Server.VisitNext | redis-stable/src/blocked.c:588-616 | the same of one visit, and that the iterator goes on to the client that was next |
| Blocked.Server.ServeReady | redis-stable/src/blocked.c:346-374 | one round over the ready keys: what each visit did, and that every signal somebody waits for leads to a later turn of its key |
| Blocked.Server.HandleClientsBlockedOnKeys | redis-stable/src/blocked.c:334-378 | keys are served in the order of their signals until none is ready; the whole history of visits and what each did; everybody who waited for a signalled key has been visited by the time that key is done; a client whose visits find an object of its type and whom no command blocks again ends unblocked, in the queue and in no list |
| Blocked.WakesExactly | redis-stable/src/blocked.c:458-473 | which object wakes a client blocked for which reason, and that strings, sets and hashes signal nothing |
| Blocked.EventFrees | redis-stable/src/blocked.c:598-612 | a visit that finds what a pending client waits for frees it, and one to somebody else does not block it unless its command says so |
| Blocked.HistoryFrees | redis-stable/src/blocked.c:334-378 | over any history of visits, such a client stays as it was until it is visited, and is free from then on |
| BioProofs.SubmitKeeps | redis-stable/src/bio.c:181-189 | submitting a job keeps the invariant |
| BioProofs.FinishKeeps | redis-stable/src/bio.c:361-366 | finishing a job keeps the invariant |
| BioProofs.PerformKeeps | redis-stable/src/bio.c:294-359 | performing a job keeps the invariant |
| BioProofs.StepKeeps | redis-stable/src/bio.c:280-444 | every step of workers, submitters, drainer and reader keeps the invariant |
| BioProofs.JobsOnceInOrder | redis-stable/src/bio.c:280-379 | in every interleaving each worker performs its jobs once, in submission order, and each counter is the number of its queued or running jobs |
| BioProofs.RunPerforms | redis-stable/src/bio.c:181-379 | in every run, what a worker has performed is a prefix of the jobs whose submission the run contains, and the others are on its list |
| BioProofs.DrainWaits | redis-stable/src/bio.c:382-390 | a drain returns only when every job submitted to the worker before it has been performed and removed |
| BioProofs.DrainWaitsForItsWorker | redis-stable/src/bio.c:382-390 | between the call of a drain for a worker and its return, whatever the other threads do: it returns only from a look at the list, and then every job submitted to that worker before the call has been performed and removed |
| BioProofs.CompletionsNotLost | redis-stable/src/bio.c:340-358 | while the completion list is not empty the pipe holds a byte, a worker is about to write one, or the reader has yet to take the list |
| BioProofs.CompletionsDelivered | redis-stable/src/bio.c:415-444 | from every reachable state with an idle main thread and responses on the list, at most one write to the pipe and the main thread by itself run all their callbacks, in order |
| BioProofs.CallbacksOnceInOrder | redis-stable/src/bio.c:415-444 | callbacks are the first of the performed completion requests of each worker, in order, each once |
| BioProofs.CallbackIsLate | redis-stable/src/bio.c:415-444 | all jobs queued before a completion request are performed when its callback is made |
| BioProofs.CompletionAfterJobs | redis-stable/src/bio.c:59-67 | when the callback of a completion request runs, every job of its kinds submitted before the request has been performed |
| BioProofs.KindsOfWorker | redis-stable/src/bio.c:59-67 | two kinds of jobs have the same worker if and only if one completion request is about both |
| BioProofs.Drained | redis-stable/src/bio.c:382-390 | from every reachable state the worker alone empties its list and wakes a waiting drainer: no wake-up is lost |
| Bitop.ByteOfHas | redis-stable/src/bitops.c:428-440 | each of the eight operators, on bytes, means what it promises of every bit, "exactly one key has it" for ONE |
| Bitop.TailOne | redis-stable/src/bitops.c:1112-1145 | clearing repeated bits at every step, with the early exit, equals clearing them once at the end |
| Bitop.TailByte | redis-stable/src/bitops.c:1080-1169 | one byte of the tail, with its early exits, is the operator on the column |
| Bitop.BlockPass | redis-stable/src/bitops.c:918-1077 | the 32-byte blocks are the operator on every column |
| Bitop.BitopCommand | redis-stable/src/bitops.c:816-1169 | every bit of the result is what the operator promises over the zero-padded keys, for any number and lengths of keys, and the length is the longest |
| Popcount.LanesOfPack | redis-stable/src/bitops.c:94-108 | the lane steps turn each byte of a word into its number of ones |
| Popcount.Gather | redis-stable/src/bitops.c:108-114 | the multiplication sums the four lanes, and no lane of seven words overflows |
| Popcount.TableIsOnes | redis-stable/src/bitops.c:45-45 | every entry of the table of 256 counts is the number of ones of its index |
| Popcount.RedisPopcount | redis-stable/src/bitops.c:35-122 | the number of ones for every length, alignment and processor |
| Bitpos.SomethingFound | redis-stable/src/bitops.c:198-214 | the scan of the last word always finds something |
| Bitpos.RedisBitpos | redis-stable/src/bitops.c:131-216 | word skipping equals the bit-by-bit scan, with -1 and zero padding; the final panic is unreachable |
| BitRange.RangeCount | redis-stable/src/bitops.c:1270-1280 | the ones of a bit range are those of its bytes less the masked edges |
| BitRange.RangeMeaning | redis-stable/src/bitops.c:1222-1245 | where a range begins and ends for every pair of indexes: 0 to -1 is the whole string |
| BitRange.BitcountCommand | redis-stable/src/bitops.c:1194-1282 | the number of ones of the clamped byte or bit range |
| BitposCommand.SearchRange | redis-stable/src/bitops.c:1376-1422 | searching first byte, whole bytes and last byte gives the first wanted bit of the range |
| BitposCommand.Command | redis-stable/src/bitops.c:1286-1423 | the first wanted bit of the clamped byte or bit range, with the -1 and zero-padding rules |
| Bitfield.SetUnsignedBitfield | redis-stable/src/bitops.c:239-252 | the bytes after storing a field in place |
| Bitfield.SetSignedBitfield | redis-stable/src/bitops.c:254-257 | the same in two's complement |
| Bitfield.GetUnsignedBitfield | redis-stable/src/bitops.c:259-271 | the number in a field |
| Bitfield.GetSignedBitfield | redis-stable/src/bitops.c:273-293 | the number in a signed field, for widths 1 to 64 |
| Bitfield.WriteValue | redis-stable/src/bitops.c:239-271 | a stored number is read back modulo 2 to the width |
| Bitfield.WriteOutside | redis-stable/src/bitops.c:239-252 | storing changes no bit outside the field |
| BitfieldOverflow.CheckUnsigned | redis-stable/src/bitops.c:318-353 | overflow is detected exactly, and the limit is the wrapped or clamped sum, through the 64-bit arithmetic |
| BitfieldOverflow.CheckSigned | redis-stable/src/bitops.c:355-408 | the same for signed fields of 1 to 64 bits, and what it answers for a number that does not fit |
| BitfieldCommand.IncrByStores | redis-stable/src/bitops.c:1562-1637 | INCRBY stores and answers the wrapped or clamped mathematical sum, or fails and changes nothing, and changes no other bit |
| BitfieldCommand.PutStores | redis-stable/src/bitops.c:1562-1637 | SET answers the old number, stores the new one, and changes no other bit |
| BitfieldCommand.NewSigned | redis-stable/src/bitops.c:1579-1590 | the number stored is the wrapped or clamped one if and only if it is not a saturating SET of a number below the range and below 2^(bits-1) - 2^63 |
| BitfieldCommand.PutUnsigned | redis-stable/src/bitops.c:1618-1623 | the same of an unsigned SET, if and only if it is not a saturating SET of a negative number |
| BitfieldCommand.SaturatesTheWrongWay | redis-stable/src/bitops.c:355-376 | two concrete numbers that saturate at the wrong end |
| BitfieldCommand.GetWindow | redis-stable/src/bitops.c:1640-1671 | reading through the nine-byte window is reading the zero-extended string |
| BitfieldCommand.BitfieldGeneric | redis-stable/src/bitops.c:1531-1673 | the string grows to the larger of its length and the least number of bytes that holds every written field; reply i is that of operation i on the string that the first i left; a command that only reads leaves even a missing key alone |
| BitfieldCommand.DoneAllAt | redis-stable/src/bitops.c:1553-1673 | running operations one after the other: each on the string that those before it left, with its own reply |
| BitfieldCommand.LeastSize | redis-stable/src/bitops.c:1505-1551 | a length holds every written field if and only if it reaches the byte of the last written bit |
| BitfieldCommand.GrownBits | redis-stable/src/bitops.c:523-543 | growing the string changes no bit |
| GlobMeaning.MatchesExactly | redis-stable/src/util.c:65-199 | a nonempty string is matched if and only if the tokens of the pattern fit it, a star being any number of characters and every other token one, and at most 1000 groups of stars have something behind them; the empty string only by the empty pattern: giving up longer matches early changes no verdict |
| GlobMeaning.LoopExact | redis-stable/src/util.c:71-199 | the same of every nested call, and that a call sets the flag for giving up only if no suffix of its string fits |
| GlobMeaning.ClassIsRanges | redis-stable/src/util.c:106-167 | a character class is its ranges, reversed ones turned round, escapes and a missing bracket included |
| GlobMeaning.StarAndNothing | redis-stable/src/util.c:71-199 | a star does not match the empty string |
| HashSlot.KeyHashSlot | redis-stable/src/cluster.h:57-76 | one of 16384 slots: that of the text between the first brace and the first closing brace behind it, or of the whole key if there is none or nothing between |
| HashSlot.PatternHashSlot | redis-stable/src/cluster.c:34-59 | if a slot is returned, every key that the glob pattern matches has that slot, for every hash function; no slot is returned exactly when a special character comes before the end of the tag and of the pattern |
| Glob.LiteralPrefix | redis-stable/src/util.c:65-200 | a matched string starts with the literal prefix of the pattern |
| Glob.LiteralWhole | redis-stable/src/util.c:65-200 | a pattern without special characters matches itself only |

## Left out

- The Python application around Redis, and its web files.
- Power loss: a crash is a crash of the process, so what was written to a file is still there.
- A directory fsync that fails after the manifest has been renamed (`aof.c:593-599`).
- AofCrashSafety.CrashSafe: for runs that meet the hypotheses above; AofRewriteLimits and AofRewriteFailures say what happens without each of them.
- AofCrashSafety.StepKeeps: the same.
- AofRewriteLimits.GapNeedsCare: for a gap behind a whole entry; a gap inside an entry may happen to be loaded.
- AofRewriteFailures.LateStartNeedsNoChild: for a child that has finished and a temporary INCR file that is there, as after a log that was stopped while it started.
- The RDB preamble and the per-type rewrite functions: a BASE file is the database it was made from.
- WAITAOF offsets, the AOF timestamp of the annotations beyond their syntax, and replication.
- Files of more than one version of the manifest format: the upgrade from a single old-style file.
- AofManifestFile.PersistedIsReload: for a manifest with a BASE file, a readable prefix, and lines that fit; AofManifestText.ManifestRoundTrip has the exact condition.
- AofCodec.LoadFile: numbers are read without a limit, because overflow in the C readers is undefined.
- CrcSpeed.InitTables: the CRC of a single byte, computed by a bit-reversing routine in `crc64.c`, is a parameter.
- CrcSpeed.Crc64Little: the big-endian variant and the 16-bit CRC would only add similar members.
- Bitop.BlockPass: the AVX2 path works on the same 32-byte blocks and is not modelled separately.
- Popcount.RedisPopcount: the processor's own instruction that counts the ones of a word is taken to do so.
- Bitpos.RedisBitpos: a word is kept as its eight bytes and the walking mask as a bit number.
- BitfieldCommand.BitfieldGeneric: starts from parsed operations; SETBIT, GETBIT and key events would add only easy members.
- Blocked.Server.UnblockClient: timeouts, replies, statistics and the total of blocked clients are not modelled.
- Blocked.Server.HandleClientsBlockedOnKey: a re-run command makes its signals before it blocks clients, and the callback of a module only signals.
- Blocked.Server.BlockForKeys: lists are values with node addresses; the links themselves are in AdList.
- AdList.List.UnlinkNode: nodes are not freed, and duplicating or emptying a list would add only easy members.
- AclCommands.SetSelector: rules for keys and channels, users, passwords and the text of whole users are not modelled, and command numbers are taken to fit the bitmap.
- AclSelector.Selector.SetCommandBit: the bitmap is a sequence of 1024 bits, not 16 words.
- AclDescribe.RecomputeCommandBits: one selector at a time.
- Bio: starting and killing threads, and what a job does to its file or memory.
- BioProofs.Drained: there is one drainer, the main thread.
- Glob: the matcher is modelled as a function, case-sensitive only.
- Cluster gossip, failover, migration, event loop and connections.
