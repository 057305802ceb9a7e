# Verification of sysbench's arithmetic, concurrency and state machines

This project models the parts of the bundled sysbench whose correctness is not
obvious from reading them, and proves what they promise. Everything is stated
for all inputs, all runs and all interleavings. `dafny verify dfyconfig.toml`
checks the whole project.

Where the source updates state in place, the model is a class with methods, each
proved against a function of the old state; the theorems are about those
functions. Where threads meet, the model is a state machine whose steps are the
source's atomic accesses and critical sections, and the theorems hold in every
reachable state.

| files | subject |
|---|---|
| NumberTheory, PrimeModulus, UniqueRand, FiniteSets | the unique-sequence generator of `sb_rand.c`, with the number theory behind it and a primality certificate |
| Crc32, CrcTables, CrcPolynomial, CrcBytewise, CrcEngine | CRC-32 in four forms, and its meaning as a polynomial remainder |
| FileBlock, BurstLimit | what the file test's block validation detects, and what it cannot |
| Xoroshiro, XoroshiroPolynomials, XoroshiroRows, XoroshiroTables, XoroshiroCharacteristic, XoroshiroJump | xoroshiro128+: step and jump, and that the jump is 2^64 steps |
| XoroshiroProducts, XoroshiroOrder, PeriodPrimes, XoroshiroPeriod, XoroshiroLowestBit | its full period of 2^128 - 1, which of its streams overlap, and its lowest bit |
| Barrier | the reusable barrier |
| Tables, Histogram, HistogramRuns | the latency histogram, alone and under concurrency |
| SeqRequests, BlockSizes | the sequential file I/O request generator and its check, and whether its requests have room for the block's trailer |
| DbConnection, BulkInsert, DbDriver | connections, result sets and multi-row inserts |
| Placeholders | client-side statements with a growing buffer |
| CircularList, OptionNames, Options | intrusive lists and the option registry |
| Timers, Counters, CounterRuns | per-thread timers and counters |
| Words32, Words64, PowersOfTwo, CStrings | integer widths, powers of two and strings |

Some results differ from what the source's comments or its callers suggest. In
each case the model follows the code, and the exact condition is proved; where the
condition speaks of states that have to be reached, a run that reaches one is given.

- `sb_barrier.c:25-29` says that a failing callback makes all callers of that
  wait return a negative value. The error flag is never cleared, so later waits
  can disagree among their callers (`Barrier.Disagreement`,
  `Barrier.AgreementExactly`).
- `xoroshiro128plus.h:51-53` promises 2^64 non-overlapping subsequences. The period
  is full, and one state short of 2^64 * 2^64 states, so the last of 2^64 streams of
  2^64 states ends in the first state of the first one; 2^64 - 1 such streams do not
  overlap (`XoroshiroPeriod.PromisedStreams`, `XoroshiroPeriod.DisjointExactly`).
- A sequential test in validation mode asks for blocks without room for checksum and
  offset if the last piece of a file is shorter than 12 bytes
  (`BlockSizes.ShortRequest`, `BlockSizes.RoomForTrailerExactly`).
- The 64-bit byte-wise CRC path is the CRC only if the initial value has no bits
  above 32 (`CrcBytewise.BytewiseAgrees`); the callers pass 0.
- The fsync cadence is upset after 2^32 requests unless the frequency divides
  2^32 (`SeqRequests.CadenceRegularExactly`), and with one file the sequential
  check complains at every new pass (`SeqRequests.WarnsExactly`).
- `db_execute` does not report that it could not free the previous result set, or
  that the connection was closed (`DbConnection.ExecuteAfterClose`,
  `DbConnection.ExecuteReportsTrulyExactly`).
- `db_bulk_insert_next` returns 0 although it drops the row on such a connection
  (`BulkInsert.DroppedRow`, `BulkInsert.NextReportsExactly`), and does not look
  whether a row fits after the flush (`BulkInsert.RowPastTheBuffer`,
  `BulkInsert.StaysInBufferExactly`).
- A failing COMMIT makes rows repeat (`BulkInsert.FailedCommitRepeatsRows`,
  `BulkInsert.EveryRowOnceExactly`).
- A registered set of options gets one validator for all its entries, that of
  the first (`Options.FirstValidatorForAll`).
- Copying a flag that is clear sets it in the copy, and of a list only the first value
  is copied (`Options.CopiedFlagExactly`, `Options.CopiedValuesExactly`).
- A checkpoint between queueing and stopping an event drops its queue time
  (`Timers.QueueTimeRecordedExactly`).

The literals in XoroshiroTables, XoroshiroOrder and PeriodPrimes are certificates:
the lemmas beside them prove what each of them stands for, so nothing rests on how
they were found. The step is shown to satisfy its characteristic polynomial at ten
states first, and from there at all. Then `x` is squared modulo that polynomial: 64
times ends at the JUMP constants, and 128 times at `x` again. For the full period,
XoroshiroOrder multiplies such squares, for each prime p that divides 2^128 - 1, to
two powers of `x` whose exponents differ by a multiple of (2^128 - 1) / p, and shows an
inverse of their sum: so only zero comes back after (2^128 - 1) / p steps.

## Model

| member | source | states |
|---|---|---|
| PrimeModulus.ModulusIsPrime | test10/sysbench/src/sb_rand.c:315 | the modulus 4294967291 is prime (by a certificate, not by trial division) |
| NumberTheory.FermatsLittleTheorem | test10/sysbench/src/sb_rand.c:313-322 | Fermat's little theorem, on which the construction rests |
| NumberTheory.MinusOneIsNotASquare | test10/sysbench/src/sb_rand.c:313-322 | modulo a prime that is 3 mod 4, a sum of two squares vanishes only if both do |
| UniqueRand.PermuteInjective | test10/sysbench/src/sb_rand.c:313-322 | the permute function never maps two 32-bit numbers to the same one |
| UniqueRand.PermuteExactly | test10/sysbench/src/sb_rand.c:313-322 | the permute function is the signed square modulo 4294967291: the only number that is congruent to plus or minus the square, by halves, and itself from the modulus on |
| UniqueRand.XorAt | test10/sysbench/src/sb_rand.c:339-340 | each bit of the exclusive or is the difference of the bits in its place |
| UniqueRand.OutputInjective | test10/sysbench/src/sb_rand.c:335-341 | permute, add, xor and permute again is injective for every offset |
| UniqueRand.OutputSurjective | test10/sysbench/src/sb_rand.c:335-341 | and reaches every 32-bit number |
| UniqueRand.OutputExactly | test10/sysbench/src/sb_rand.c:335-341 | the output is the only number that is the signed square of a w, where the bits of w are those of the ticket's signed square plus the offset, flipped where 0x5bf03635 has a bit |
| UniqueRand.SeededExactly | test10/sysbench/src/sb_rand.c:325-333 | counter and offset start at the signed square of the seed's signed square plus a constant |
| UniqueRand.InvariantOverRuns | test10/sysbench/src/sb_rand.c:325-341 | in every interleaving, tickets are handed out in order, wrap at 2^32 and determine what calls return |
| UniqueRand.UniqueOutputs | test10/sysbench/src/sb_rand.c:325-341 | two calls of any threads return the same number if and only if their fetches are a multiple of 2^32 apart, for every seed |
| UniqueRand.EveryFetchReturns | test10/sysbench/src/sb_rand.c:335-341 | a call that returned gave the number that the seeds and the place of its fetch determine, and once all threads are outside the generator every fetch has its answer |
| UniqueRand.WindowCoversEverything | test10/sysbench/src/sb_rand.c:325-341 | any 2^32 successive tickets produce each 32-bit number |
| UniqueRand.UniqueGenerator.constructor | test10/sysbench/src/sb_rand.c:325-333 | the seeding of counter and offset, as signed squares |
| UniqueRand.UniqueGenerator.Unique | test10/sysbench/src/sb_rand.c:335-341 | one call updates the counter and returns the signed square of the masked sum of the offset and the signed square of the old counter value |
| Crc32.StepsInjective | test10/sysbench/src/tests/fileio/crc32.c:117-123 | the one-bit division step loses nothing, in any number |
| Crc32.StepsLinear | test10/sysbench/src/tests/fileio/crc32.c:117-123 | the division register is linear over GF(2) |
| Crc32.FeedBitsAppend | test10/sysbench/src/tests/fileio/crc32.c:90-96 | bit streams can be split anywhere |
| Crc32.ShortWindowInjective | test10/sysbench/src/tests/fileio/crc32.c:117-123 | from one register value, different streams of the same length up to 32 bits lead to different values |
| CrcTables.FeedBytesIsFeedBits | test10/sysbench/src/tests/fileio/crc32.c:90-100 | a byte-wise register runs through the values of the bit-serial one |
| CrcTables.CrcContinues | test10/sysbench/src/tests/fileio/crc32.c:194-226 | crc32(crc32(c, a), b) is crc32(c, a + b) for every split |
| CrcTables.CheckValue | test10/sysbench/src/tests/fileio/crc32.c:86-103 | the checksum of the digits 1 to 9 is 0xcbf43926 |
| CrcTables.ByteLookup | test10/sysbench/src/tests/fileio/crc32.c:188 | one table lookup is eight division steps |
| CrcTables.Slice | test10/sysbench/src/tests/fileio/crc32.c:131-135 | the table for a byte followed by k zero bytes |
| CrcTables.WordLookup | test10/sysbench/src/tests/fileio/crc32.c:231-233 | four lookups are 32 division steps of the whole word |
| CrcTables.FeedWord | test10/sysbench/src/tests/fileio/crc32.c:231-233 | a word step is four byte steps, in memory order |
| CrcTables.ReverseMovesBytes | test10/sysbench/src/tests/fileio/crc32.c:129-135 | byte reversal turns the little-endian byte step into the big-endian one |
| CrcEngine.CrcTable.constructor | test10/sysbench/src/tests/fileio/crc32.c:104-137 | the generator loops build the eight tables: division of each byte with 0 to 3 zero bytes, and the reversals |
| CrcEngine.CrcTable.MakePoly | test10/sysbench/src/tests/fileio/crc32.c:110-115 | the exponents of section 8 of RFC 1952 give the pattern 0xedb88320 |
| CrcEngine.CrcTable.FillFirst | test10/sysbench/src/tests/fileio/crc32.c:117-123 | the first table |
| CrcEngine.CrcTable.FillOthers | test10/sysbench/src/tests/fileio/crc32.c:125-136 | the seven tables derived from it |
| CrcEngine.CrcTable.Crc32Little | test10/sysbench/src/tests/fileio/crc32.c:237-268 | for every alignment, length and initial value: the bit-serial CRC |
| CrcEngine.CrcTable.BigWord | test10/sysbench/src/tests/fileio/crc32.c:271-273 | a big-endian word step keeps the register the byte reversal of the little-endian one |
| CrcEngine.CrcTable.BigRegister | test10/sysbench/src/tests/fileio/crc32.c:285-307 | the whole big-endian loop does |
| CrcEngine.CrcTable.Crc32Big | test10/sysbench/src/tests/fileio/crc32.c:277-310 | the same CRC, for every input |
| CrcEngine.CrcTable.Crc32Bytewise | test10/sysbench/src/tests/fileio/crc32.c:217-225 | the byte-wise path, with its 64-bit register |
| CrcEngine.CrcTable.Crc32 | test10/sysbench/src/tests/fileio/crc32.c:194-226 | whichever path is taken, the result is the bit-serial CRC |
| CrcBytewise.DriftNeverVanishes | test10/sysbench/src/tests/fileio/crc32.c:188-226 | bits above 32 in the initial value keep the 64-bit register away from the CRC |
| CrcBytewise.BytewiseAgrees | test10/sysbench/src/tests/fileio/crc32.c:188-226 | the 64-bit byte-wise path gives the CRC if and only if the initial value has no bits above 32 |
| FileBlock.ValidatesIffBlock | test10/sysbench/src/tests/fileio/sb_fileio.c:1810-1837 | validation accepts exactly the blocks that filling can write at that offset |
| FileBlock.Encode64Bytes | test10/sysbench/src/tests/fileio/sb_fileio.c:1800-1803 | which byte of an offset is stored where, in both byte orders |
| FileBlock.BlockLayout | test10/sysbench/src/tests/fileio/sb_fileio.c:1791-1804 | what each byte of a block is: payload, then the four bytes of its checksum, then the eight of the offset |
| FileBlock.BlockValidatesAtItsOffset | test10/sysbench/src/tests/fileio/sb_fileio.c:1791-1837 | a written block validates at an offset if and only if that is its own |
| FileBlock.BurstChangesCrc | test10/sysbench/src/tests/fileio/sb_fileio.c:1817-1819 | a change confined to 32 successive bits of the payload changes the checksum |
| FileBlock.CorruptionIsNoticed | test10/sysbench/src/tests/fileio/sb_fileio.c:1810-1837 | such a change, or one only in the checksum, or only in the offset, makes validation fail |
| FileBlock.FourBytesAreShort | test10/sysbench/src/tests/fileio/sb_fileio.c:1810-1837 | in particular any change within four successive bytes |
| BurstLimit.UnnoticedExactly | test10/sysbench/src/tests/fileio/sb_fileio.c:1817-1819 | two payloads of one length have the same checksum if and only if their difference is a multiple of the generator polynomial |
| BurstLimit.LongerBurstUnnoticed | test10/sysbench/src/tests/fileio/sb_fileio.c:1817-1819 | 32 bits is sharp: the polynomial's 33 coefficients, added at any bit of any payload, leave the checksum as it was |
| BurstLimit.LongerBurstValidates | test10/sysbench/src/tests/fileio/sb_fileio.c:1810-1837 | and the changed block still validates |
| BurstLimit.FiveBytes | test10/sysbench/src/tests/fileio/sb_fileio.c:1810-1837 | such a change of five bytes, written out |
| BlockSizes.RoomForTrailerExactly | test10/sysbench/src/tests/fileio/sb_fileio.c:598-602 | all sequential requests are long enough for checksum and offset if and only if requests and files are, and the piece left at the end of a file too |
| BlockSizes.ShortRequest | test10/sysbench/src/tests/fileio/sb_fileio.c:598-602 | a configuration with a request that is too short |
| FileBlock.FillBuffer | test10/sysbench/src/tests/fileio/sb_fileio.c:1791-1804 | fills the array with payload, checksum and offset |
| FileBlock.ValidateBuffer | test10/sysbench/src/tests/fileio/sb_fileio.c:1810-1837 | returns 0 if and only if the block validates |
| Xoroshiro.PrevUndoesNext | test10/sysbench/src/xoroshiro128plus.h:38-48 | the state step can be undone |
| Xoroshiro.NextUndoesPrev | test10/sysbench/src/xoroshiro128plus.h:38-48 | and reaches every state |
| Xoroshiro.NextStepsTo | test10/sysbench/src/xoroshiro128plus.h:38-48 | each bit of the next state from the bits of the state: rotations by 55 and 36, exclusive or, shift by 14 |
| Xoroshiro.OutputIsSum | test10/sysbench/src/xoroshiro128plus.h:41 | the output less one word of the state is the other, modulo 2^64 |
| Xoroshiro.NextLinear | test10/sysbench/src/xoroshiro128plus.h:38-48 | the state step is linear over GF(2) |
| Xoroshiro.ZeroIsIsolated | test10/sysbench/src/xoroshiro128plus.h:38-48 | zero is a fixed point that no other state leads to |
| Xoroshiro.NeverZero | test10/sysbench/src/xoroshiro128plus.h:38-48 | a generator that is not seeded with zero never gets there |
| Xoroshiro.JumpLinear | test10/sysbench/src/xoroshiro128plus.h:55-72 | the jump is linear |
| Xoroshiro.JumpCommutes | test10/sysbench/src/xoroshiro128plus.h:55-72 | jumping and stepping commute, for every number of steps |
| Xoroshiro.Generator.NextOutput | test10/sysbench/src/xoroshiro128plus.h:38-48 | the step in place, bit by bit, and as its output the sum of the two old words modulo 2^64 |
| Xoroshiro.Generator.JumpAhead | test10/sysbench/src/xoroshiro128plus.h:55-72 | the jump loop evaluates the polynomial with the JUMP coefficients at the state |
| Barrier.BarrierObject.Init | test10/sysbench/src/sb_barrier.c:37-55 | initialisation, and refusal of a count of 0 |
| Barrier.BarrierObject.Enter | test10/sysbench/src/sb_barrier.c:62-84 | the first critical section of a wait |
| Barrier.RecheckDecides | test10/sysbench/src/sb_barrier.c:86-93 | a woken thread leaves exactly when its generation is complete, with -1, or 0, as that generation has for it |
| Barrier.ReachableInvariant | test10/sysbench/src/sb_barrier.c:58-96 | the invariant of every interleaving of any number of threads, with spurious wake-ups |
| Barrier.NobodyLeavesEarly | test10/sysbench/src/sb_barrier.c:58-96 | nobody finishes its k-th wait before everybody started its k-th wait |
| Barrier.SerialTellsGeneration | test10/sysbench/src/sb_barrier.c:86-90 | comparing serial numbers tells exactly whether the generation is complete, wrap-around included |
| Barrier.CompleteIsSignalled | test10/sysbench/src/sb_barrier.c:71-90 | the broadcast reaches everyone it has to: a waiting thread whose generation is complete has been signalled |
| Barrier.NoDeadlock | test10/sysbench/src/sb_barrier.c:58-96 | without counting on spurious signals, some thread can always move on |
| Barrier.AgreementExactly | test10/sysbench/src/sb_barrier.c:58-96 | all callers get a negative value, or exactly one gets SERIAL_THREAD and the others 0, if and only if this callback failed, or none did before, or there is one thread |
| Barrier.Disagreement | test10/sysbench/src/sb_barrier.c:58-96 | a run of two threads whose second generation disagrees, because the first callback failed |
| Barrier.ContractUpToFirstFailure | test10/sysbench/src/sb_barrier.c:25-29 | the documented contract holds up to and including the first failing callback |
| Histogram.PercentileBinInside | test10/sysbench/src/sb_histogram.c:164-172 | the search stops inside the array if and only if the rounded target does not exceed the number of events; always for percentiles up to 100 |
| Histogram.PercentileBinHoldsEvent | test10/sysbench/src/sb_histogram.c:164-172 | the bin found holds an event, unless the target rounds down to 0 |
| Histogram.PercentileBinMonotone | test10/sysbench/src/sb_histogram.c:164-172 | a higher percentile never gives a lower bin |
| Histogram.PercentileBinByTarget | test10/sysbench/src/sb_histogram.c:164-172 | the search for the rounded target finds exactly the first bin up to which there are more events than the percentile's share less one half |
| Histogram.HistogramObject.constructor | test10/sysbench/src/sb_histogram.c:54-96 | an empty histogram |
| Histogram.HistogramObject.Update | test10/sysbench/src/sb_histogram.c:99-113 | one event more in the clamped bin, nothing else changed |
| Histogram.HistogramObject.GetPctIntermediate | test10/sysbench/src/sb_histogram.c:116-184 | answers the percentile of the events not merged before, and merges them |
| Histogram.HistogramObject.MergeIntermediateIntoCumulative | test10/sysbench/src/sb_histogram.c:194-215 | merges all slots into the cumulative array |
| Histogram.HistogramObject.Search | test10/sysbench/src/sb_histogram.c:164-172 | the loop finds the first bin up to which there are more than n * percentile / 100 - 1/2 of the n events |
| Histogram.HistogramObject.GetPctCumulative | test10/sysbench/src/sb_histogram.c:241-261 | answers the percentile of all events since the last checkpoint |
| Histogram.HistogramObject.GetPctCheckpoint | test10/sysbench/src/sb_histogram.c:264-289 | the same, and starts again from zero |
| HistogramRuns.RunInvariant | test10/sysbench/src/sb_histogram.c:99-289 | the invariant of every interleaving of increments with compare-and-swap merges |
| HistogramRuns.UpdatesAreConserved | test10/sysbench/src/sb_histogram.c:99-289 | updates made = slots + cumulative + what checkpoints counted, per bin, whenever the lock is free; cumulative_nevents is the sum of cumulative_array |
| HistogramRuns.ReportIsComplete | test10/sysbench/src/sb_histogram.c:125-184 | every report, with the earlier ones, counts all updates made before it took the lock and none made after it released it |
| HistogramRuns.IntermediateReportsDoNotDisturb | test10/sysbench/src/sb_histogram.c:241-289 | with no update under way, a cumulative or checkpoint report counts exactly the updates since the last checkpoint, however many intermediate reports came between |
| HistogramRuns.IntermediateReportCountsInterval | test10/sysbench/src/sb_histogram.c:116-184 | and an intermediate report exactly those since the report before it |
| HistogramRuns.FetchKeepsConserved | test10/sysbench/src/sb_ck_pr.h:207-218 | a successful compare-and-swap moves the count from the slot to the merged array |
| SeqRequests.Generator.constructor | test10/sysbench/src/tests/fileio/sb_fileio.c:1021-1035 | the initial state |
| SeqRequests.Generator.GetSeqRequest | test10/sysbench/src/tests/fileio/sb_fileio.c:410-477 | one call of the request generator |
| SeqRequests.Generator.CheckSeqReq | test10/sysbench/src/tests/fileio/sb_fileio.c:1693-1731 | the run-time check |
| SeqRequests.DataInOrder | test10/sysbench/src/tests/fileio/sb_fileio.c:410-477 | the n-th read or write has the closed form: file (n div k) mod num_files, position (n mod k) * request size, cut at the end of the file; for ever |
| SeqRequests.OperationsExactly | test10/sysbench/src/tests/fileio/sb_fileio.c:418-423 | a reading test only reads; a writing one writes or syncs, and syncs only if there is a frequency |
| SeqRequests.PassCoversOnce | test10/sysbench/src/tests/fileio/sb_fileio.c:448-466 | each pass covers each byte of each file by exactly one request |
| SeqRequests.CadenceHolds | test10/sysbench/src/tests/fileio/sb_fileio.c:424-441 | after every fsync_freq writes, one fsync per file: without fsyncs always, with them for 2^32 writes, and always if fsync_freq divides 2^32 |
| SeqRequests.CadenceRegularExactly | test10/sysbench/src/tests/fileio/sb_fileio.c:424-443 | the cadence is regular for ever if and only if fsync_freq divides 2^32 |
| SeqRequests.CadenceBreaks | test10/sysbench/src/tests/fileio/sb_fileio.c:424-443 | otherwise the request after 2^32 writes is an early fsync |
| SeqRequests.WarnsExactly | test10/sysbench/src/tests/fileio/sb_fileio.c:468-472 | the check complains if and only if there is one file and it is started again; with two files or more it never does |
| SeqRequests.CheckAcceptsExactly | test10/sysbench/src/tests/fileio/sb_fileio.c:1693-1731 | the check accepts exactly requests that go on where the one before ended, and tells what is wrong with others |
| SeqRequests.CheckOfSuccessive | test10/sysbench/src/tests/fileio/sb_fileio.c:1693-1731 | what the check says about successive requests of the closed form |
| DbConnection.AlwaysBalanced | test10/sysbench/src/db_driver.c:299-786 | over every sequence of calls: result sets opened minus freed is 1 exactly in state RESULT_SET and 0 otherwise; each driver call that may give a result set bumps exactly one counter |
| DbConnection.InvalidIsFinal | test10/sysbench/src/db_driver.c:327-389 | a closed connection stays closed |
| DbConnection.ClosedExactly | test10/sysbench/src/db_driver.c:327-389 | over every sequence of calls, a connection is closed if and only if there was a close or a supported reconnect that failed |
| DbConnection.ReconnectExactly | test10/sysbench/src/db_driver.c:351-389 | state and counters after a reconnect: an error and closed, or a reconnect and ready; nothing else changes |
| DbConnection.QueryReportsTruly | test10/sysbench/src/db_driver.c:600-635 | db_query leaves the driver's error, or its own if the driver was not asked; bumps the counter of the answer; and has a result set open exactly after a read without error |
| DbConnection.NextResultReports | test10/sysbench/src/db_driver.c:509-695 | the calls for the next result set: when the driver is asked, which error is left, whether a result set is open |
| DbConnection.ExecuteReportsTrulyExactly | test10/sysbench/src/db_driver.c:469-504 | db_execute does so if and only if it got past freeing the previous result, or an older error was left |
| DbConnection.ExecuteLikeQuery | test10/sysbench/src/db_driver.c:469-504 | where db_execute proceeds, it does what db_query would |
| DbConnection.ExecuteAfterClose | test10/sysbench/src/db_driver.c:469-504 | a call that does not: after a close |
| DbConnection.FlushMakesRoom | test10/sysbench/src/db_driver.c:998-1011 | after a flush there is room for a row that fits at all |
| DbDriver.Connection.constructor | test10/sysbench/src/db_driver.c:299-320 | a new connection |
| DbDriver.Connection.Query | test10/sysbench/src/db_driver.c:600-635 | refines the connection state machine |
| DbDriver.Connection.Execute | test10/sysbench/src/db_driver.c:469-504 | likewise |
| DbDriver.Connection.NextResult | test10/sysbench/src/db_driver.c:657-695 | likewise |
| DbDriver.Connection.StmtNextResult | test10/sysbench/src/db_driver.c:509-551 | likewise |
| DbDriver.Connection.FreeResults | test10/sysbench/src/db_driver.c:701-739 | likewise, with the misuse cases |
| DbDriver.Connection.CloseStatement | test10/sysbench/src/db_driver.c:744-786 | likewise |
| DbDriver.Connection.Prepare | test10/sysbench/src/db_driver.c:405-430 | likewise |
| DbDriver.Connection.Close | test10/sysbench/src/db_driver.c:327-347 | likewise |
| DbDriver.Connection.Reconnect | test10/sysbench/src/db_driver.c:351-389 | likewise, with its counters |
| DbDriver.Connection.BulkInsertInit | test10/sysbench/src/db_driver.c:923-967 | puts the fixed part of the statement into a new buffer |
| DbDriver.Connection.BulkInsertNext | test10/sysbench/src/db_driver.c:971-1022 | adds a row, after a flush if the buffer is full; all writes stay inside the buffer |
| DbDriver.Connection.BulkDoInsert | test10/sysbench/src/db_driver.c:1026-1053 | sends the rows, and a COMMIT when it is due |
| DbDriver.Connection.BulkInsertDone | test10/sysbench/src/db_driver.c:1057-1070 | sends the rest and gives up the buffer |
| BulkInsert.FlushFollows | test10/sysbench/src/db_driver.c:1026-1053 | a flush moves the buffered rows, as one INSERT, to the database; nothing if the INSERT fails; if only the COMMIT fails, they are inserted and stay in the buffer as well |
| BulkInsert.NextTracks | test10/sysbench/src/db_driver.c:971-1022 | each call keeps: the buffered text is the fixed part and the pending rows, the statements sent are INSERTs that fit and COMMITs, uncommitted rows are bulk_commit_cnt; rows sent and pending grow by the row taken, or by the repeated ones if a COMMIT failed |
| BulkInsert.NextReportsExactly | test10/sysbench/src/db_driver.c:971-1022 | a call that returns 0 took the row if and only if the connection was usable; otherwise it changed neither buffer nor database |
| BulkInsert.NextSendsExactly | test10/sysbench/src/db_driver.c:998-1017 | a call sends the buffered rows exactly when one more would not fit with its comma and final NUL; a row that fits is added; one that does not fit into an empty buffer is refused |
| BulkInsert.DroppedRow | test10/sysbench/src/db_driver.c:971-977 | a row that is dropped with return value 0: on a closed connection |
| BulkInsert.StaysInBufferExactly | test10/sysbench/src/db_driver.c:998-1017 | a row stays within the buffer if and only if it fits behind the fixed part in case it has to wait for a flush |
| BulkInsert.RowPastTheBuffer | test10/sysbench/src/db_driver.c:998-1017 | a row that does not |
| BulkInsert.EveryRowOnceExactly | test10/sysbench/src/db_driver.c:923-1070 | from init to a successful done, whatever failed on the way: the taken rows were inserted once each and in order if and only if no COMMIT that was due failed; the surplus is the rows that were buffered at such COMMITs; each COMMIT but a last one came after 1000 rows or more, and there are none if the driver needs none |
| BulkInsert.FailedCommitRepeatsRows | test10/sysbench/src/db_driver.c:1035-1048 | a row inserted twice: INSERT, failed COMMIT, the same INSERT again, COMMIT |
| Placeholders.EachMarkReplaced | test10/sysbench/src/drivers/pgsql/drv_pgsql.c:659-690 | the result is the query with the i-th ? replaced by the i-th text |
| Placeholders.ValueTextSays | test10/sysbench/src/db_driver.c:852-907 | the text of a value, read back, is the value: decimal digits and sign, fields of dates and times in order with their separators, quotes, NULL |
| Placeholders.TextSays | test10/sysbench/src/drivers/pgsql/drv_pgsql.c:334-366 | the k-th ? becomes $k, counted from 1, or the text of the k-th value |
| Placeholders.NumbersDiffer | test10/sysbench/src/drivers/pgsql/drv_pgsql.c:334-366 | each ? of a prepared statement gets a number of its own |
| Placeholders.SubstitutedIsCString | test10/sysbench/src/drivers/mysql/drv_mysql.c:931-965 | no text brings in an early NUL |
| Placeholders.PrintValue | test10/sysbench/src/db_driver.c:852-907 | the text of a value, or -1 if it does not fit |
| Placeholders.PutMark | test10/sysbench/src/drivers/pgsql/drv_pgsql.c:659-688 | the retries end, with a buffer that the text fits |
| Placeholders.Expand | test10/sysbench/src/drivers/pgsql/drv_pgsql.c:334-378 | the loop ends, writes inside the buffer only, gives the substituted query and counts the parameters; there is room for the final NUL if and only if the query is not empty |
| CircularList.Add | test10/sysbench/src/sb_list.h:49-55 | refines insertion at the front of a sequence |
| CircularList.AddTail | test10/sysbench/src/sb_list.h:57-63 | refines insertion at the end |
| CircularList.Delete | test10/sysbench/src/sb_list.h:65-69 | refines removal at any place |
| CircularList.Replace | test10/sysbench/src/sb_list.h:71-77 | refines replacement at any place |
| CircularList.EmptyExactly | test10/sysbench/src/sb_list.h:79-80 | the emptiness test is exact |
| CircularList.FreeAll | test10/sysbench/src/sb_options.c:471-488 | the safe loop frees every item once, reads no item after freeing it, and leaves the head alone |
| OptionNames.OptNameCmp | test10/sysbench/src/sb_options.c:623-635 | gives 0 if and only if the names are equal up to dashes and underscores |
| OptionNames.FoldExactly | test10/sysbench/src/sb_options.c:612-635 | folded names are equal if and only if the names are, up to dashes and underscores; no dash is left |
| OptionNames.ConvertDashes | test10/sysbench/src/sb_options.c:612-620 | folds a name in place |
| OptionNames.Split | test10/sysbench/src/sb_options.c:165-175 | the strtok loop gives the non-empty pieces between commas, as the next three rows say |
| OptionNames.TokensAfterComma | test10/sysbench/src/sb_options.c:165-175 | a comma adds no value |
| OptionNames.TokensOfPiece | test10/sysbench/src/sb_options.c:165-175 | a piece without commas, after a comma or at the start, is one value more |
| OptionNames.ListedTokens | test10/sysbench/src/sb_options.c:165-175 | values written with commas are read back |
| Options.LookupAfterSet | test10/sysbench/src/sb_options.c:127-186 | after set_option, a lookup under any spelling gives the new values and all other options are unchanged |
| Options.FlagAfterSet | test10/sysbench/src/sb_options.c:141-152 | setting a flag succeeds with the flag set exactly for no value, on, true and 1, succeeds with the flag clear exactly for off, false and 0, and fails otherwise |
| Options.StringAfterSet | test10/sysbench/src/sb_options.c:138-161 | numbers and strings that were set are read back as they are; an empty value clears them |
| Options.ListAfterSet | test10/sysbench/src/sb_options.c:162-180 | a list holds the pieces of its value; a file name is not stored |
| Options.UnknownTypeRefused | test10/sysbench/src/sb_options.c:181-184 | other types are refused, unless there is nothing to store |
| Options.FileSetsLast | test10/sysbench/src/sb_options.c:674-747 | an option named in a file has the values of the last line for it |
| Options.FirstValidatorForAll | test10/sysbench/src/sb_options.c:95-108 | every option of a registered set ends up with the validator of the set's first entry |
| Options.RegisteredAsSet | test10/sysbench/src/sb_options.c:95-108 | registering a set does to each option what set_option does with its default |
| Options.CopiedFlagExactly | test10/sysbench/src/sb_options.c:397-407 | a flag that is copied is set in the copy, even if it was clear: the copy is right if and only if the flag is set |
| Options.CopiedValuesExactly | test10/sysbench/src/sb_options.c:397-407 | only the first value of a list is copied; numbers and strings are copied |
| Options.Registry.constructor | test10/sysbench/src/sb_options.c:75-80 | an empty registry |
| Options.Registry.FindOption | test10/sysbench/src/sb_options.c:638-655 | finds the option of a name, if there is one, under any spelling |
| Options.Registry.AddOption | test10/sysbench/src/sb_options.c:590-609 | refines adding a key to a map; names stay distinct |
| Options.Registry.AddValue | test10/sysbench/src/sb_options.c:550-568 | adds a value at the end |
| Options.Registry.SetOption | test10/sysbench/src/sb_options.c:127-186 | refines set_option on the map, its failures included |
| Options.Registry.GetFlag | test10/sysbench/src/sb_options.c:223-239 | the flag of an option, clear if there is no such option |
| Options.Registry.GetString | test10/sysbench/src/sb_options.c:369-394 | the first value of an option, if there is one |
| Options.Registry.Copy | test10/sysbench/src/sb_options.c:397-407 | refines copying on the map; the result only tells whether there was an option to copy |
| Options.Registry.RegisterArgSet | test10/sysbench/src/sb_options.c:95-108 | registers entries up to the first failure |
| Options.Registry.RemoveOption | test10/sysbench/src/sb_options.c:531-547 | refines removing a key from a map |
| Timers.DiffIsExact | test10/sysbench/src/sb_timer.h:60-62 | the difference of two clock readings is exact modulo 2^64 |
| Timers.Timer.Stop | test10/sysbench/src/sb_timer.h:127-146 | records one event |
| Timers.Timer.Checkpoint | test10/sysbench/src/sb_timer.c:101-111 | copies and resets |
| Timers.Timer.Merge | test10/sysbench/src/sb_timer.c:156-177 | merges two timers |
| Timers.Timer.Avg | test10/sysbench/src/sb_timer.c:116-121 | the sum divided by the number of events, rounded down; 0 without events |
| Timers.SummaryIsTrue | test10/sysbench/src/sb_timer.h:133-141 | a timer holds number, sum and true extremes of what it recorded |
| Timers.AverageBetweenExtremes | test10/sysbench/src/sb_timer.c:116-121 | min <= avg <= max, barring overflow |
| Timers.AverageIsQuotient | test10/sysbench/src/sb_timer.c:116-121 | the average is the total of the recorded times divided by their number, rounded down, barring overflow; 0 without events |
| Timers.MergeAllIsSummary | test10/sysbench/src/sysbench.c:400-402 | folding over the threads gives what one timer would have recorded |
| Timers.MergeOrderIrrelevant | test10/sysbench/src/sysbench.c:400-402 | in any order of the threads |
| Timers.EveryTimeReportedOnce | test10/sysbench/src/sb_timer.c:101-111 | over every run of stops and checkpoints, each recorded time is in exactly one copy or still in the timer |
| Timers.ReportIsTrue | test10/sysbench/src/sysbench.c:372-411 | a cumulative report counts all events of the threads' intervals, and its average is their total divided by their number |
| Timers.QueueTimeRecordedExactly | test10/sysbench/src/sysbench.c:739-740 | the elapsed time that is recorded includes the queue time if and only if no checkpoint comes between queueing and stopping, or there was none |
| Timers.ElapsedExactly | test10/sysbench/src/sb_timer.h:117-146 | the recorded time is the nanoseconds from start to stop plus the queue time, modulo 2^64; a checkpoint in between drops only the queue time |
| Counters.CounterTable.Add | test10/sysbench/src/sb_counter.h:86-91 | adds to one slot |
| Counters.CounterTable.Merge | test10/sysbench/src/sb_counter.c:53-58 | adds up the worker threads' rows |
| Counters.CounterTable.Checkpoint | test10/sysbench/src/sb_counter.c:60-68 | turns totals into increments |
| Counters.CounterTable.AggIntermediate | test10/sysbench/src/sb_counter.c:75-81 | a report of the intermediate stream |
| Counters.CounterTable.AggCumulative | test10/sysbench/src/sb_counter.c:88-94 | a report of the cumulative stream, independent of the other |
| CounterRuns.ReportsAddUp | test10/sysbench/src/sb_counter.c:53-94 | under concurrent adds and other streams: all values a stream reported add up, modulo 2^64, to the total it merged last, which counts every addition made before the report began and none after it ended |
| CounterRuns.NoAdditionIsLost | test10/sysbench/src/sb_counter.h:79-97 | with one writer per slot, load and store lose nothing |
| CrcPolynomial.DivisionHolds | test10/sysbench/src/tests/fileio/crc32.c:78-103 | long division over GF(2): every polynomial is quotient times the generator polynomial plus remainder |
| CrcPolynomial.DivisionIsUnique | test10/sysbench/src/tests/fileio/crc32.c:78-103 | and no other quotient and remainder of 32 coefficients fit |
| CrcPolynomial.CoefficientsOfPoly | test10/sysbench/src/tests/fileio/crc32.c:110-115 | the table pattern has the coefficients x^26+x^23+...+x+1, the highest power in the lowest bit |
| CrcPolynomial.RegisterIsRemainder | test10/sysbench/src/tests/fileio/crc32.c:86-103 | the shift register holds, after any bits, the remainder of the polynomial they make with the start value added at its high end |
| CrcPolynomial.CrcIsRemainder | test10/sysbench/src/tests/fileio/crc32.c:78-103 | the CRC of any bytes from any start value, complemented, is the remainder of their polynomial |
| XoroshiroPolynomials.TimesXValue | test10/sysbench/src/xoroshiro128plus.h:38-48 | multiplying a polynomial by x, modulo the characteristic polynomial, is one more step |
| XoroshiroPolynomials.SquareOfPoly | test10/sysbench/src/xoroshiro128plus.h:38-48 | applying a polynomial in the step twice doubles the places of its coefficients |
| XoroshiroCharacteristic.AllKilled | test10/sysbench/src/xoroshiro128plus.h:38-48 | the step satisfies its characteristic polynomial of degree 128, at every state |
| XoroshiroCharacteristic.SquareValue | test10/sysbench/src/xoroshiro128plus.h:38-48 | the table of even powers squares a polynomial: it stands for the same steps taken twice |
| XoroshiroProducts.ProductValue | test10/sysbench/src/xoroshiro128plus.h:38-48 | a certified product modulo the characteristic polynomial stands for applying one polynomial after the other |
| XoroshiroProducts.Multiply | test10/sysbench/src/xoroshiro128plus.h:38-48 | so products of powers of x are powers of x |
| XoroshiroJump.PowerOfXIsPower | test10/sysbench/src/xoroshiro128plus.h:38-48 | squaring x k times gives the polynomial of Pow2(k) steps |
| XoroshiroJump.JumpIsPower | test10/sysbench/src/xoroshiro128plus.h:51-72 | the jump is equivalent to Pow2(64) calls of next, from every state |
| XoroshiroJump.Pow2Of64 | test10/sysbench/src/xoroshiro128plus.h:51-53 | and that is 18446744073709551616 calls |
| XoroshiroJump.StreamsShareOneSequence | test10/sysbench/src/xoroshiro128plus.h:51-53 | a generator that jumped n times continues the one sequence exactly n * 2^64 places ahead, for every n |
| PeriodPrimes.Prime67280421310721 | test10/sysbench/src/xoroshiro128plus.h:14 | the largest factor of 2^128 - 1 is prime, by certificates down to primes found by trial |
| XoroshiroPeriod.PeriodReturns | test10/sysbench/src/xoroshiro128plus.h:14-48 | 2^128 - 1 steps come back, from every state |
| XoroshiroPeriod.FullPeriod | test10/sysbench/src/xoroshiro128plus.h:14-48 | from every state but zero, k steps come back if and only if k is a multiple of 2^128 - 1: the period is full |
| XoroshiroPeriod.SameStateExactly | test10/sysbench/src/xoroshiro128plus.h:14-48 | two numbers of steps lead to the same state if and only if they differ by a multiple of 2^128 - 1 |
| XoroshiroPeriod.DisjointExactly | test10/sysbench/src/xoroshiro128plus.h:51-53 | the first n streams of up to 2^64 states each are pairwise disjoint if and only if they fit in one period |
| XoroshiroPeriod.PromisedStreams | test10/sysbench/src/xoroshiro128plus.h:51-53 | 2^64 streams of 2^64 states overlap; 2^64 - 1 such streams, or 2^64 streams of 2^64 - 1 states, do not |
| XoroshiroLowestBit.LowestBitIsLfsr | test10/sysbench/src/xoroshiro128plus.h:21-23 | the lowest bits of the outputs come from a linear feedback shift register: each is a fixed sum of the 128 before it |

## Left out

- The system calls of the surrounding test suite: the kernel side that implements them is not in the repository.
- The floating-point distributions of `sb_rand.c` and the logarithmic bucket values of the histogram: rounding is the point there. The bucket index of an update is an input that the model clamps as the code does; percentile targets are computed with real numbers instead of doubles.
- The literal tables in `crc32tbl.h`: the tables are those that the generator loops build.
- 64-bit wrap-around of histogram counts, and 32-bit wrap-around of buffer lengths in the placeholder loops: counts and lengths are unbounded there. Timers and counters do wrap.
- `sb_histogram_print`, and all other printing.
- `cumulative_nevents` before its first update: `sb_histogram_init` does not set it; the model starts from 0, as the zeroed global histogram does.
- HistogramRuns.RunInvariant: the rest of a report's critical section, after its last fetch, is one step, since it touches only what the lock protects.
- CounterRuns.NoAdditionIsLost: the row shared by the background threads is treated like the others, with one writer; no report reads it.
- Options.Registry.Copy: where both names are the same option, the source reads the value after it freed it; the model passes on the value from before.
- Reading numbers out of option values (`sb_opt_to_int`, `sb_opt_to_size`, `sb_opt_to_double`).
- Options.Registry.SetOption: the values of an option are a sequence; the list operations behind it are proved separately in `CircularList`. What reading a configuration file yields is an input, so `read_config`'s line syntax is not modelled.
- Placeholders.Expand: the floating-point texts of `%f` are inputs. For the empty query the source writes the final NUL through a null buffer; the method reports that there is no room instead.
- FileBlock.FillBuffer: requires room for checksum and offset; for a shorter request the unsigned length of the payload wraps around in the source, which writes outside the buffer from there on. `BlockSizes.RoomForTrailerExactly` says which sequential tests have no such request.
- FileBlock.ValidateBuffer: likewise, for reading.
- DbDriver.Connection.BulkInsertNext: requires that a row which has to wait for a flush fits behind the fixed part of the statement, because the code does not look again and writes past the array; `BulkInsert.StaysInBufferExactly` says when that matters.
- The client libraries behind the drivers: what they answer is an input to every call.
- `file_get_rnd_request`: it depends on a floating-point draw.
- Memory allocation failures, signals, thread creation, and the event queue.
