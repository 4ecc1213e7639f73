# qemukvm-benchmark in Dafny

qemukvm-benchmark is a small command-line harness that measures compression
libraries inside a virtual machine. `main` reads the options `-t <n>` (iterations),
`-l`/`-h` (compression level) and `--zlib`/`--bzip2`/`--snappy`/`--lzo`
(library). Any other argument is the input file name. `run_benchmark` derives an
archive name and an output name from the input name and opens both files, then
hands them to one codec unit. The bzip2 and snappy units run `iterations` timed
compress calls, then `iterations` timed decompress calls, stop at the first
failure, and print the mean compression ratio and the mean times. The means come
from three static running sums per unit.

This project models that logic and proves properties of it:

- `bench.dfy` (module `Bench`) holds the shared vocabulary:
  - the status codes and the compression levels;
  - an exact stand-in for the `float` statistics: a finite value is an exact
    real, and `NotFinite` stands for an infinity or a NaN;
  - the sample formulas;
  - the `Accumulators` class for the three static sums;
  - a `Heap` class. It records which `malloc`ed buffers are still owned, so that
    frees and leaks can be stated.
- `bzip2.dfy` (module `Bzip2`) models `bzip2_compression.c`.
- `snappy.dfy` (module `Snappy`) models the `STATS_MODE` build of
  `snappy_compression.c`.
- `driver.dfy` (module `Driver`) models `main.c`:
  - `get_options`;
  - the 100-byte name buffers with `strcpy`/`strcat`;
  - the archive and output names;
  - the return codes of `run_benchmark` and `main`.

Each codec unit is a class. Its fields are the accumulators, the heap and a ghost
trace of codec calls. `Compress`, `Decompress` and the two loops of the run
function are methods. Each method is proved equal to a pure step or phase function
of the old abstract state. Forward-recursive phase functions state the loops. The
lemmas about those functions state the behaviour:

- the run stops at the first failure;
- each success adds exactly one sample;
- the means are the sums divided by `iterations`;
- `source_len` is threaded from the compress phase into the decompress phase;
- buffers are freed or leaked as the code does it.

The external world is passed in as oracle values:

- a record per call, holding what `get_file_size`, `malloc`, the codec library and
  the clock return on that call;
- `atoi`;
- which names `fopen` can open.

The model follows the C code where it and the design intent differ:

- bzip2 `compress` sizes its output buffer as line 38 computes it, `buf_size + 600`.
  The 1% margin the comment promises is a separate, corrected definition (see
  Findings).

- `iterations = 0` is accepted. The printed means are then `NotFinite`, which is a
  float division by zero, not a precondition.
- The buffers that the C code never frees stay owned in the heap model.
- Behaviour that C leaves undefined is an explicit `Undefined` outcome of
  `main`. There are three such cases:
  - `-t` as the last argument;
  - a name longer than its buffer;
  - no input name at all.

There is one exception. When both allocations in bzip2 `decompress` fail, C goes on
to read into and decompress through null pointers, which is undefined. The model
treats that case as a failure (see Findings and "## Left out").

## Model

| member | source | states |
|---|---|---|
| Bench.TimeSample | qemukvm-benchmark/bzip2_compression.c:68 | A time sample is the nanosecond part divided by 10^6: non-negative, and below 1000 ms for a nanosecond field below 10^9 |
| Bench.RatioPercent | qemukvm-benchmark/bzip2_compression.c:69 | A ratio sample is finite exactly when the source is non-empty. It then satisfies ratio * source = 100 * compressed, and it is at most 100 exactly when the output is no larger than the input |
| Bench.SumStatFinite | qemukvm-benchmark/snappy_compression.c:55 | A running float sum of ratio samples stays finite exactly when every sample is finite, and its value is then the exact sum of the samples |
| Bench.Mean | qemukvm-benchmark/bzip2_compression.c:160-161 | A printed mean is finite exactly when the sum is finite and `iterations` is non-zero, and mean * iterations = sum |
| Bench.Accumulators.constructor | qemukvm-benchmark/bzip2_compression.c:6-8 | The three static sums start at zero |
| Bench.Accumulators.AddCompression | qemukvm-benchmark/bzip2_compression.c:68-69 | Adds exactly one time sample and one ratio sample and leaves the decompression sum alone |
| Bench.Accumulators.AddDecompression | qemukvm-benchmark/bzip2_compression.c:133 | Adds exactly one time sample to the decompression sum and leaves the other two alone |
| Bench.Heap.Malloc | qemukvm-benchmark/bzip2_compression.c:30-34 | `malloc` succeeds exactly when memory is available. On success the heap owns one new buffer of the requested size under a fresh identity; on failure the heap is unchanged |
| Bench.Heap.Free | qemukvm-benchmark/bzip2_compression.c:43-46 | `free` removes exactly that buffer from the heap |
| Bench.AllocateThenRelease | qemukvm-benchmark/bzip2_compression.c:39-49 | Freeing the buffer that was just allocated restores the previous set of owned buffers |
| Bzip2.OutputSizeAsWritten | qemukvm-benchmark/bzip2_compression.c:38 | The output capacity as written is exactly the input size plus 600, because `1/100` is 0 in integer arithmetic |
| Bzip2.OutputSize | qemukvm-benchmark/bzip2_compression.c:36-37 | The intended capacity: the input size plus 600 plus a margin of at least 1% of the input, rounded up by less than one byte |
| Bzip2.Bounded | qemukvm-benchmark/bzip2_compression.c:56-61 | The library reports BZ_OK exactly when it reports success and its output fits the capacity; the length is then the output length |
| Bzip2.AsWrittenCapacityRejectsFittingOutput | qemukvm-benchmark/bzip2_compression.c:36-38 | A 100000-byte input whose output needs 101000 bytes, which is within the promised 1% + 600, fails with BZ_OUTBUFF_FULL under the capacity as written and fits under the intended capacity |
| Bzip2.AsWrittenCapacityRejectsSomeFittingOutput | qemukvm-benchmark/bzip2_compression.c:36-38 | For every non-empty input the capacity as written is below the documented bound, so an output of exactly that bound is rejected with BZ_OUTBUFF_FULL and fits the intended capacity |
| Bzip2.CorrectedCapacityHoldsDocumentedBound | qemukvm-benchmark/bzip2_compression.c:36-37 | The intended capacity holds every output of at most 1% more than the input plus 600 bytes |
| Bzip2.BlockSize | qemukvm-benchmark/bzip2_compression.c:142-146 | LOW_COMPRESSION maps to block size 1 and every other level maps to 9 |
| Bzip2.CompressStep | qemukvm-benchmark/bzip2_compression.c:18-72 | `*source_len` is the file size on every path. The output buffer is `buf_size + 600` bytes, as line 38 computes it. Success happens exactly when both allocations succeed and the library reports BZ_OK with output that fits that buffer. One call is appended to the trace. On success one time sample and one ratio sample are added; on failure the sums are unchanged. A failed first or second allocation leaves the owned buffers as they were. Once both allocations succeed, both buffers stay owned whether the call succeeds or fails |
| Bzip2.DecompressAllocCheckAsWritten | qemukvm-benchmark/bzip2_compression.c:89-105 | As written, the allocation checks let the call proceed when both `malloc`s failed |
| Bzip2.DecompressAllocCheck | qemukvm-benchmark/bzip2_compression.c:89-105 | The call proceeds exactly when both allocations succeed; if one fails, the other buffer is released and the call fails. This agrees with the code whenever at least one allocation succeeds |
| Bzip2.DecompressStep | qemukvm-benchmark/bzip2_compression.c:81-136 | Success happens exactly when both allocations succeed, the library reports BZ_OK with output that fits `source_len`, `fwrite` writes every decompressed byte and the stream has no error. One call, carrying the `source_len` passed in, is appended to the trace. Only on success is one time sample added. Success frees both buffers; a failure after both allocations leaks both |
| Bzip2.CompressPhaseStopsAtFirstFailure | qemukvm-benchmark/bzip2_compression.c:150-158 | With the first failure at iteration k, the phase fails after exactly k successful calls and one failing call. Only the samples of the k successes are added, and `source_len` is the size seen by the failing call |
| Bzip2.CompressPhaseAllSucceed | qemukvm-benchmark/bzip2_compression.c:150-158 | When every call succeeds there are exactly `iterations` calls and `iterations` sample pairs, and `source_len` is the size seen by the last call |
| Bzip2.CompressPhaseLeaks | qemukvm-benchmark/bzip2_compression.c:56-71 | Each successful compress call leaves its two buffers allocated: the owned count grows by two per iteration |
| Bzip2.DecompressPhaseStopsAtFirstFailure | qemukvm-benchmark/bzip2_compression.c:164-171 | With the first failure at iteration k, the phase fails after exactly k successful calls and one failing call, all with the same `source_len`, and adds only k time samples |
| Bzip2.DecompressPhaseAllSucceed | qemukvm-benchmark/bzip2_compression.c:164-171 | When every call succeeds there are exactly `iterations` calls and samples, and the owned buffers are unchanged |
| Bzip2.RunStopsInCompressPhase | qemukvm-benchmark/bzip2_compression.c:150-158 | A compress failure at iteration k fails the run with nothing printed, after k + 1 compress calls and no decompress call |
| Bzip2.RunFailsBeyondAsWrittenCapacity | qemukvm-benchmark/bzip2_compression.c:36-61 | A run fails at the first compress call whose output needs more than `buf_size + 600` bytes, even within the documented bound. Nothing is printed and no decompress call follows |
| Bzip2.RunStopsInDecompressPhase | qemukvm-benchmark/bzip2_compression.c:140-171 | After `iterations` successful compress calls, a decompress failure at iteration k fails the run. The two compression means are printed but not the decompression mean. Every decompress call gets the `source_len` of the last compress call |
| Bzip2.RunAllSucceed | qemukvm-benchmark/bzip2_compression.c:138-176 | When every call succeeds the run succeeds after exactly `iterations` compress calls and `iterations` decompress calls. From zeroed sums, the three printed means are the sums of the samples divided by `iterations` |
| Bzip2.RunWithoutIterations | qemukvm-benchmark/bzip2_compression.c:150-173 | With a zero or negative count (`-t 0`, `-t -2`) no call is made and the state is unchanged. All three means are printed: not finite for 0, and 0 from zeroed sums for a negative count |
| Bzip2.MeanRatioFinite | qemukvm-benchmark/bzip2_compression.c:160 | The printed mean ratio is finite exactly when no compress call saw an empty file |
| Bzip2.Bzip2Unit.constructor | qemukvm-benchmark/bzip2_compression.c:6-8 | The unit starts with zero sums, no owned buffers and an empty trace |
| Bzip2.Bzip2Unit.Compress | qemukvm-benchmark/bzip2_compression.c:18-72 | `compress`, step by step through `malloc`, the library oracle, `free` and the accumulators, yields the state and the results of `CompressStep` |
| Bzip2.Bzip2Unit.Decompress | qemukvm-benchmark/bzip2_compression.c:81-136 | `decompress` yields the state and the result of `DecompressStep` |
| Bzip2.Bzip2Unit.CompressLoop | qemukvm-benchmark/bzip2_compression.c:150-158 | The first loop of `run_bzip2` yields `Bzip2.CompressPhase`, the forward-recursive phase function the phase lemmas are about |
| Bzip2.Bzip2Unit.DecompressLoop | qemukvm-benchmark/bzip2_compression.c:164-171 | The second loop of `run_bzip2` yields `Bzip2.DecompressPhase`, the forward-recursive phase function the phase lemmas are about |
| Bzip2.Bzip2Unit.RunBzip2 | qemukvm-benchmark/bzip2_compression.c:138-176 | `run_bzip2` yields `Bzip2.RunSpec`, the run specification the run lemmas are about: level mapping, both phases, `source_len` threading and the printed report |
| Snappy.OutputCapacity | qemukvm-benchmark/snappy_compression.c:75-88 | The output buffer size is what `snappy_uncompressed_length` reports, or 0 when it reports nothing |
| Snappy.CompressStep | qemukvm-benchmark/snappy_compression.c:12-67 | Success happens exactly when both allocations succeed, since the library result is never looked at. One call is appended to the trace. On success one time sample and one ratio sample are added; on failure the sums are unchanged. The owned buffers never change, because every path frees what it allocated |
| Snappy.DecompressStep | qemukvm-benchmark/snappy_compression.c:69-109 | Success happens exactly when both allocations succeed. The trace records `uncompressed_len` as it stands when the call returns: the size taken from the archive, or the initial 0 when the archive buffer cannot be allocated, since `snappy_uncompressed_length` is then never reached. Only on success is one time sample added. A failure leaves the owned buffers as they were; a success leaks both buffers |
| Snappy.CompressPhaseStopsAtFirstFailure | qemukvm-benchmark/snappy_compression.c:116-124 | With the first failure at iteration k, the phase fails after exactly k successful calls and one failing call, and adds only k sample pairs |
| Snappy.CompressPhaseAllSucceed | qemukvm-benchmark/snappy_compression.c:116-124 | When every call succeeds there are exactly `iterations` calls and sample pairs, with no buffer left owned |
| Snappy.DecompressPhaseStopsAtFirstFailure | qemukvm-benchmark/snappy_compression.c:130-137 | With the first failure at iteration k, the phase fails after exactly k successful calls and one failing call, and adds only k time samples |
| Snappy.DecompressPhaseAllSucceed | qemukvm-benchmark/snappy_compression.c:130-137 | When every call succeeds there are exactly `iterations` calls and time samples |
| Snappy.DecompressPhaseLeaks | qemukvm-benchmark/snappy_compression.c:98-108 | Each successful decompress call leaves two buffers allocated: the owned count grows by two per iteration |
| Snappy.RunStopsInCompressPhase | qemukvm-benchmark/snappy_compression.c:116-124 | A compress failure at iteration k fails the run with nothing printed, after k + 1 compress calls and no decompress call |
| Snappy.RunStopsInDecompressPhase | qemukvm-benchmark/snappy_compression.c:116-137 | After `iterations` successful compress calls, a decompress failure at iteration k fails the run. The two compression means are printed but not the decompression mean |
| Snappy.RunAllSucceed | qemukvm-benchmark/snappy_compression.c:115-139 | When every call succeeds the run succeeds after exactly `iterations` calls of each kind. From zeroed sums, the printed means are the sums of the samples divided by `iterations` |
| Snappy.RunWithoutIterations | qemukvm-benchmark/snappy_compression.c:116-139 | With a zero or negative count no call is made and the state is unchanged. All three means are printed: not finite for 0, and 0 from zeroed sums for a negative count |
| Snappy.SnappyUnit.constructor | qemukvm-benchmark/snappy_compression.c:8-10 | The unit starts with zero sums, no owned buffers and an empty trace |
| Snappy.SnappyUnit.Compress | qemukvm-benchmark/snappy_compression.c:12-67 | `compress`, step by step, yields the state and the result of `CompressStep` |
| Snappy.SnappyUnit.Decompress | qemukvm-benchmark/snappy_compression.c:69-109 | `decompress` yields the state and the result of `DecompressStep` |
| Snappy.SnappyUnit.CompressLoop | qemukvm-benchmark/snappy_compression.c:116-124 | The first `STATS_MODE` loop yields `Snappy.CompressPhase`, the forward-recursive phase function the phase lemmas are about |
| Snappy.SnappyUnit.DecompressLoop | qemukvm-benchmark/snappy_compression.c:130-137 | The second `STATS_MODE` loop yields `Snappy.DecompressPhase`, the forward-recursive phase function the phase lemmas are about |
| Snappy.SnappyUnit.RunSnappy | qemukvm-benchmark/snappy_compression.c:111-139 | The `STATS_MODE` `run_snappy` yields `Snappy.RunSpec`, the run specification the run lemmas are about: both phases and the printed report |
| Driver.ParseSucceedsIff | qemukvm-benchmark/main.c:48-79 | Parsing is defined exactly when no `-t` is the last argument and every file name that gets copied fits the 100-byte buffer |
| Driver.LevelKeptWithoutLevelFlag | qemukvm-benchmark/main.c:56-61 | Without a `-l`/`-h` flag the level keeps its earlier value |
| Driver.LastLevelFlagWins | qemukvm-benchmark/main.c:56-61 | The last `-l`/`-h` flag decides the level |
| Driver.LibraryKeptWithoutLibraryFlag | qemukvm-benchmark/main.c:63-74 | Without a library flag the library keeps its earlier value |
| Driver.LastLibraryFlagWins | qemukvm-benchmark/main.c:63-74 | The last library flag decides the library |
| Driver.IterationsKeptWithoutFlag | qemukvm-benchmark/main.c:52-54 | Without `-t` the iteration count keeps its earlier value |
| Driver.LastIterationsFlagWins | qemukvm-benchmark/main.c:52-54 | The last `-t` has a following argument, and `atoi` of that argument is the iteration count |
| Driver.NameKeptWithoutPlainArgument | qemukvm-benchmark/main.c:75-77 | Without an argument that matches no flag, the input name keeps its earlier contents |
| Driver.LastNameWins | qemukvm-benchmark/main.c:75-77 | The last argument that matches no flag becomes the input name |
| Driver.DefaultsWithoutFlags | qemukvm-benchmark/main.c:191-193 | With no flags the options are 1 iteration, HIGH_COMPRESSION and LIB_ZLIB |
| Driver.IterationsValueIsAlsoTheName | qemukvm-benchmark/main.c:50-77 | Because `-t` does not skip its value, the value sets the iteration count and also becomes the input name unless a later plain argument replaces it |
| Driver.IterationsValueIsAlsoTheNameExample | qemukvm-benchmark/main.c:50-77 | `bench -t 5` gives 5 iterations and the input name "5" |
| Driver.BenchOptions.constructor | qemukvm-benchmark/main.c:191-193 | `main` stores the defaults before parsing |
| Driver.NameBuffer.constructor | qemukvm-benchmark/main.c:188 | A fresh 100-byte buffer holds no string yet |
| Driver.NameBuffer.Strcpy | qemukvm-benchmark/main.c:86 | `strcpy` is defined exactly when the string and its terminating NUL fit; the buffer then holds exactly that string. Otherwise it is an overflow and the modelled contents are unchanged |
| Driver.NameBuffer.Strcat | qemukvm-benchmark/main.c:90-92 | `strcat` is defined exactly when the joined string and its NUL fit; the buffer then holds the old contents followed by the suffix |
| Driver.GetOptions | qemukvm-benchmark/main.c:48-79 | The argument loop writes the options and the name buffer. On a defined run they hold what `Driver.ParseFrom` gives, the parse specification the parse lemmas are about; otherwise the fault is reported |
| Driver.ArchiveName | qemukvm-benchmark/main.c:86-90 | The archive name's length is the input length plus the extension length |
| Driver.OutputName | qemukvm-benchmark/main.c:91-92 | The output name's length is the input length plus the extension length plus 4 |
| Driver.EndsWithOnlyItsOwnExtension | qemukvm-benchmark/main.c:90-156 | An archive name ends with the extension of its own library and with no other library's extension |
| Driver.ArchiveNameRoundTrip | qemukvm-benchmark/main.c:86-90 | Splitting an archive name recovers the input name and the library |
| Driver.SplitArchiveNameRoundTrip | qemukvm-benchmark/main.c:86-90 | Every name that splits is the archive name of its parts |
| Driver.OutputNameRoundTrip | qemukvm-benchmark/main.c:91-92 | Splitting an output name recovers the input name and the library |
| Driver.SplitOutputNameRoundTrip | qemukvm-benchmark/main.c:91-92 | Every name that splits is the output name of its parts |
| Driver.DerivedNamesDistinct | qemukvm-benchmark/main.c:84-92 | The input, archive and output names are pairwise different, and each derived name determines the input name and the library |
| Driver.RunBenchmark | qemukvm-benchmark/main.c:81-182 | `run_benchmark`, built from the name buffers and the `fopen` oracle, yields the exit code and file events of `Driver.Benchmark`, the specification `Driver.BenchmarkReturnCodes` and `Driver.BenchmarkClosesWhatItOpens` are about |
| Driver.BenchmarkReturnCodes | qemukvm-benchmark/main.c:93-110 | When the names fit, `run_benchmark` returns 0 exactly when both files open, and 0 only after the codec run. If the archive fails to open it returns 1 having opened nothing; if the output fails to open it returns 1 after closing the archive |
| Driver.BenchmarkClosesWhatItOpens | qemukvm-benchmark/main.c:93-110 | Every file `run_benchmark` opens is closed as often as it was opened |
| Driver.Entry | qemukvm-benchmark/main.c:184-231 | `main`, built from the option record, the name buffer, `get_options` and `run_benchmark`, yields `Driver.MainSpec`, the specification `Driver.MainExitCodes` and `Driver.MainClosesWhatItOpens` are about |
| Driver.TooFewArguments | qemukvm-benchmark/main.c:195-199 | With fewer than two arguments `main` returns 1 and touches no file |
| Driver.MainExitCodes | qemukvm-benchmark/main.c:195-230 | `main` returns 0 exactly when there are at least two arguments, parsing is defined, a name was given, the input opens and the derived names fit. It returns 1 exactly when there are too few arguments or the input does not open; the result of `run_benchmark` is ignored |
| Driver.MainClosesWhatItOpens | qemukvm-benchmark/main.c:204-230 | On every defined run, each file `main` and `run_benchmark` open is closed as often as it was opened |

## Left out

- File contents and stream positions are not modelled. This covers `fread`, the archive bytes written by `fwrite`, and the `rewind` calls between iterations and in `main`. Each call sees the file size through its oracle record. Only bzip2 `decompress` reads `fwrite`'s result and `ferror`, as oracle values.
- `get_file_size` comes from `util.h`, which is not part of this model. Its result is taken as a non-negative size.
- `clock_gettime` and `diff` are not modelled. Each call receives the nanosecond field of the elapsed time as an oracle value. Like the code, the model ignores the seconds field.
- Floating-point rounding is not modelled. The sums and means are exact reals; infinities and NaNs, from an empty input file or from `iterations = 0`, are `NotFinite`.
- The bzip2 and snappy library functions are oracles: `BZ2_bzBuffToBuffCompress/Decompress`, `snappy_compress`, `snappy_uncompress`, `snappy_uncompressed_length` and `snappy_max_compressed_length`. They are not re-implemented.
- `Snappy.CompressStep`: `snappy_compress` receives an uninitialised `compressed_len` as its capacity. The model takes the length it leaves behind as an oracle value and does not model the uninitialised read.
- `usage`, `print_configuration` and every `printf`/`puts` diagnostic are left out. Only the presence of the three printed means is modelled, in the `Report`.
- The non-`STATS_MODE` branch of `run_snappy` (snappy_compression.c:140-151) and the `#ifndef STATS_MODE` prints are left out. They call `compress` and `decompress` with the wrong arity and name undefined identifiers.
- `run_zlib` and `run_lzo` are not part of this model. `run_benchmark` records which runner it would call, with its arguments, as a file event.
- `Driver.RunBenchmark` does not run the bzip2 and snappy units. It records the runner call; the units are modelled on their own in `Bzip2` and `Snappy`. `run_benchmark` ignores the runner's result, so the exit code does not depend on it.
- main.c:151 passes four arguments to `run_snappy`, while snappy_compression.c:111 takes three. The header that would settle this is not part of this model, so `run_snappy` is modelled as defined.
- `atoi` is a parameter of type `string -> int`, and `fopen` is a predicate on names. Neither is modelled in detail.
- The `default` branches of the library switches (main.c:177-178 and 225-226) cannot be taken, because `Library` has exactly the four values `get_options` can store.
- Machine integer widths are not modelled. `buf_size` (`int`), `output_size` (`unsigned int`) and `source_len` are unbounded, so there is no wrap-around for files over 2 GiB.
- Command-line arguments are sequences of characters; an embedded NUL is not given special meaning.
- `Driver.GetOptions`: on an undefined run (`-t` last, or a name that overflows), the options and the buffer contents are unspecified.
- `Driver.NameBuffer.Strcpy` and `Driver.NameBuffer.Strcat`: an overflowing copy is reported and leaves the modelled contents unchanged. The out-of-bounds writes themselves are not modelled.
- `Bzip2.DecompressStep`, `Bzip2.Bzip2Unit.Decompress`, `Bzip2.DecompressPhaseStopsAtFirstFailure` and `Bzip2.RunStopsInDecompressPhase` use the corrected allocation check, so the case where both allocations fail is a failure here. In C that case reads into and decompresses through null pointers, which is undefined. The code as written is `Bzip2.DecompressAllocCheckAsWritten`; see Findings.
- `Bzip2.Bzip2Unit.Decompress`: implements that corrected check, so with both allocations failed it returns a failure instead of reaching `fread` on null buffers.
- `Bzip2.DecompressPhaseStopsAtFirstFailure`: counts a call whose two allocations both fail as a clean failure that ends the phase; in C that call is undefined.
- `Bzip2.RunStopsInDecompressPhase`: likewise counts such a call as a clean failure of the run.

## Findings

| source | as written | input that shows it | evidently intended | confidence | as-written member | corrected member |
|---|---|---|---|---|---|---|
| qemukvm-benchmark/bzip2_compression.c:38 | `output_size = buf_size + (1/100 * buf_size) + 600` uses integer `1/100`, which is 0. The buffer is only the input size plus 600, contrary to the comment at lines 36-37 | A 100000-byte input whose compressed form needs 101000 bytes (within 1% + 600) fails with BZ_OUTBUFF_FULL (`Bzip2.AsWrittenCapacityRejectsFittingOutput`). For every non-empty input, an output of the documented bound is rejected (`Bzip2.AsWrittenCapacityRejectsSomeFittingOutput`), and the run fails at that call (`Bzip2.RunFailsBeyondAsWrittenCapacity`) | A margin of 1% of the input, rounded up, plus 600 | high (not executed) | Bzip2.OutputSizeAsWritten | Bzip2.OutputSize |
| qemukvm-benchmark/bzip2_compression.c:89-105 | Each `return BZIP2_FAILURE` sits inside the test for the other buffer. When both `malloc`s fail, neither check returns, and `decompress` goes on to `fread` and decompress into null pointers | input and output allocations both fail: the check yields `Proceed` | Fail whenever either allocation fails, releasing the buffer that was obtained | high (not executed) | Bzip2.DecompressAllocCheckAsWritten | Bzip2.DecompressAllocCheck |
