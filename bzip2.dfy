/** The bzip2 codec unit: output-buffer sizing, the `compress` and `decompress`
    calls with their buffer bookkeeping and statistics, and the two-phase
    benchmark loop `run_bzip2`. The bzip2 library, the C runtime (`malloc`,
    `get_file_size`, `fwrite`, `ferror`) and the clock are oracles: every call
    takes as a parameter the answers they give on that call. */
module Bzip2 {
  import opened Bench

  const BZ_OK: int := 0
  const BZ_OUTBUFF_FULL: int := -8

  // ---------------------------------------------------------------------------
  // Output-buffer size

  /** `buf_size + (1/100 * buf_size) + 600` exactly as written: `1/100` is an
      integer division, so the margin the comment above it promises is zero. */
  function OutputSizeAsWritten(bufSize: nat): (size: nat)
    ensures size == bufSize + 600
  {
    bufSize + (1 / 100 * bufSize) + 600
  }

  /** The documented bzip2 bound: 1% more than the input (rounded up), plus 600 bytes. */
  function OutputSize(bufSize: nat): (size: nat)
    ensures size >= bufSize + 600
    ensures 100 * (size - bufSize - 600) >= bufSize
    ensures 100 * (size - bufSize - 600) < bufSize + 100
  {
    bufSize + (bufSize + 99) / 100 + 600
  }

  /** The answer of BZ2_bzBuffToBuffCompress / BZ2_bzBuffToBuffDecompress given a
      destination of `capacity` bytes: the library never writes past it, and
      output that would not fit is reported as BZ_OUTBUFF_FULL. */
  datatype BzResult = BzResult(error: int, len: nat)

  function Bounded(capacity: nat, error: int, len: nat): (r: BzResult)
    ensures r.error == BZ_OK <==> error == BZ_OK && len <= capacity
    ensures r.error == BZ_OK ==> r.len == len <= capacity
  {
    if error == BZ_OK && len > capacity then BzResult(BZ_OUTBUFF_FULL, capacity) else BzResult(error, len)
  }

  /** An input of 100000 bytes whose compressed form takes 101000 bytes: 400 bytes
      more than the as-written capacity, within the 1000 the documented bound
      allows. bzip2 then reports BZ_OUTBUFF_FULL, while the corrected capacity
      holds the output. */
  lemma AsWrittenCapacityRejectsFittingOutput()
    ensures 101000 <= 100000 + 100000 / 100 + 600
    ensures Bounded(OutputSizeAsWritten(100000), BZ_OK, 101000).error == BZ_OUTBUFF_FULL
    ensures Bounded(OutputSize(100000), BZ_OK, 101000).error == BZ_OK
  {
  }

  /** For every non-empty input the as-written capacity is smaller than the
      documented bound, so an output of exactly the bound is rejected by it and
      held by the corrected capacity. */
  lemma AsWrittenCapacityRejectsSomeFittingOutput(bufSize: nat)
    requires bufSize > 0
    ensures OutputSizeAsWritten(bufSize) < OutputSize(bufSize)
    ensures Bounded(OutputSizeAsWritten(bufSize), BZ_OK, OutputSize(bufSize)).error == BZ_OUTBUFF_FULL
    ensures Bounded(OutputSize(bufSize), BZ_OK, OutputSize(bufSize)).error == BZ_OK
  {
  }

  /** The corrected capacity holds every output within the documented bound of
      1% more than the input plus 600 bytes. */
  lemma CorrectedCapacityHoldsDocumentedBound(bufSize: nat, len: nat)
    requires 100 * len <= 101 * bufSize + 60000
    ensures Bounded(OutputSize(bufSize), BZ_OK, len).error == BZ_OK
  {
  }

  /** `run_bzip2`'s level mapping: LOW_COMPRESSION gives block size 1, anything else 9. */
  function BlockSize(level: Level): (blockSize: int)
    ensures 1 <= blockSize <= 9
    ensures blockSize == 1 <==> level == Low
    ensures blockSize == 9 <==> level != Low
  {
    if level == Low then 1 else 9
  }

  // ---------------------------------------------------------------------------
  // What the outside world answers

  /** The answers one call of `compress` gets. */
  datatype CompressWorld = CompressWorld(
    fileSize: nat,          // get_file_size(source)
    bufferAvailable: bool,  // malloc of the input buffer succeeds
    outputAvailable: bool,  // malloc of the output buffer succeeds
    bzError: int,           // what BZ2_bzBuffToBuffCompress reports when the output fits
    compressedLen: nat,     // the bytes it produces
    elapsedNs: nat)         // tv_nsec of the measured interval

  /** The answers one call of `decompress` gets. */
  datatype DecompressWorld = DecompressWorld(
    archSize: nat,          // get_file_size(arch)
    inputAvailable: bool,   // malloc of the archive buffer succeeds
    outputAvailable: bool,  // malloc of the `source_len`-byte output buffer succeeds
    bzError: int,           // what BZ2_bzBuffToBuffDecompress reports when the output fits
    decompressedLen: nat,   // the bytes it produces
    written: nat,           // what fwrite returns
    streamError: bool,      // ferror(output_file)
    elapsedNs: nat)

  /** `compress` succeeds when both buffers are obtained and bzip2 reports BZ_OK
      with output that fits the as-written capacity. */
  ghost predicate CompressSucceeds(w: CompressWorld)
  {
    w.bufferAvailable && w.outputAvailable && w.bzError == BZ_OK && w.compressedLen <= OutputSizeAsWritten(w.fileSize)
  }

  ghost predicate DecompressSucceeds(w: DecompressWorld, sourceLen: nat)
  {
    && w.inputAvailable && w.outputAvailable
    && w.bzError == BZ_OK && w.decompressedLen <= sourceLen
    && w.written == w.decompressedLen && !w.streamError
  }

  // ---------------------------------------------------------------------------
  // The state of the unit

  /** One call of `compress` (with the block size it passed to bzip2) or of
      `decompress` (with the `source_len` it was given), and whether it succeeded. */
  datatype Call = CompressCall(blockSize: int, ok: bool) | DecompressCall(sourceLen: nat, ok: bool)

  /** The unit's accumulators, the heap, and the calls made so far. */
  datatype Model = Model(totals: Totals, heap: HeapState, calls: seq<Call>)

  datatype CompressOutcome = CompressOutcome(model: Model, status: Status, sourceLen: nat)

  datatype DecompressOutcome = DecompressOutcome(model: Model, status: Status)

  /** What `compress` does to the unit's state, with the output buffer sized as
      line 38 of the source computes it. */
  function CompressStep(m: Model, w: CompressWorld, blockSize: int): (r: CompressOutcome)
    requires HeapOk(m.heap)
    ensures HeapOk(r.model.heap)
    ensures r.sourceLen == w.fileSize
    ensures r.status == Success <==> CompressSucceeds(w)
    ensures r.model.calls == m.calls + [CompressCall(blockSize, r.status == Success)]
    ensures r.status == Success ==>
      r.model.totals == WithCompression(m.totals, TimeSample(w.elapsedNs), RatioPercent(w.compressedLen, w.fileSize))
    ensures r.status == Failure ==> r.model.totals == m.totals
    ensures !(w.bufferAvailable && w.outputAvailable) ==> r.model.heap.owned == m.heap.owned
    ensures w.bufferAvailable && w.outputAvailable ==>
      r.model.heap.owned == m.heap.owned[m.heap.next := w.fileSize][m.heap.next + 1 := OutputSizeAsWritten(w.fileSize)]
  {
    var failed := m.calls + [CompressCall(blockSize, false)];
    if !w.bufferAvailable then
      CompressOutcome(m.(calls := failed), Failure, w.fileSize)
    else
      var withBuffer := Allocated(m.heap, w.fileSize);
      if !w.outputAvailable then
        AllocateThenRelease(m.heap, w.fileSize);
        CompressOutcome(Model(m.totals, Released(withBuffer, m.heap.next), failed), Failure, w.fileSize)
      else
        var capacity := OutputSizeAsWritten(w.fileSize);
        var withBoth := Allocated(withBuffer, capacity);
        var reply := Bounded(capacity, w.bzError, w.compressedLen);
        if reply.error != BZ_OK then
          CompressOutcome(Model(m.totals, withBoth, failed), Failure, w.fileSize)
        else
          var totals := WithCompression(m.totals, TimeSample(w.elapsedNs), RatioPercent(reply.len, w.fileSize));
          CompressOutcome(Model(totals, withBoth, m.calls + [CompressCall(blockSize, true)]), Success, w.fileSize)
  }

  /** How `decompress` reacts to its two allocations, as written: a missing
      archive buffer is handled only when the output buffer exists, and the
      other way round, so with both missing it goes on with no buffers. */
  datatype AllocCheck = Proceed | ReleaseOutputAndFail | ReleaseInputAndFail | JustFail

  function DecompressAllocCheckAsWritten(inputOk: bool, outputOk: bool): (r: AllocCheck)
    ensures !inputOk && !outputOk ==> r == Proceed
  {
    if !inputOk && outputOk then ReleaseOutputAndFail
    else if !outputOk && inputOk then ReleaseInputAndFail
    else Proceed
  }

  /** The corrected reaction: proceed only with both buffers, and release the one
      that was obtained otherwise. */
  function DecompressAllocCheck(inputOk: bool, outputOk: bool): (r: AllocCheck)
    ensures r == Proceed <==> inputOk && outputOk
    ensures r == ReleaseOutputAndFail <==> !inputOk && outputOk
    ensures r == ReleaseInputAndFail <==> inputOk && !outputOk
    ensures (inputOk || outputOk) ==> r == DecompressAllocCheckAsWritten(inputOk, outputOk)
  {
    if inputOk && outputOk then Proceed
    else if outputOk then ReleaseOutputAndFail
    else if inputOk then ReleaseInputAndFail
    else JustFail
  }

  /** What `decompress` does to the unit's state. */
  function DecompressStep(m: Model, w: DecompressWorld, sourceLen: nat): (r: DecompressOutcome)
    requires HeapOk(m.heap)
    ensures HeapOk(r.model.heap)
    ensures r.status == Success <==> DecompressSucceeds(w, sourceLen)
    ensures r.model.calls == m.calls + [DecompressCall(sourceLen, r.status == Success)]
    ensures r.status == Success ==> r.model.totals == WithDecompression(m.totals, TimeSample(w.elapsedNs))
    ensures r.status == Failure ==> r.model.totals == m.totals
    ensures r.status == Failure && w.inputAvailable && w.outputAvailable ==>
      r.model.heap.owned == m.heap.owned[m.heap.next := w.archSize][m.heap.next + 1 := sourceLen]
    ensures r.status == Success || !(w.inputAvailable && w.outputAvailable) ==> r.model.heap.owned == m.heap.owned
  {
    var failed := m.calls + [DecompressCall(sourceLen, false)];
    var withInput := if w.inputAvailable then Allocated(m.heap, w.archSize) else m.heap;
    var withBoth := if w.outputAvailable then Allocated(withInput, sourceLen) else withInput;
    assert m.heap.next !in m.heap.owned && m.heap.next + 1 !in m.heap.owned;
    match DecompressAllocCheck(w.inputAvailable, w.outputAvailable)
    case ReleaseOutputAndFail => DecompressOutcome(Model(m.totals, Released(withBoth, m.heap.next), failed), Failure)
    case ReleaseInputAndFail => DecompressOutcome(Model(m.totals, Released(withBoth, m.heap.next), failed), Failure)
    case JustFail => DecompressOutcome(Model(m.totals, withBoth, failed), Failure)
    case Proceed =>
      var reply := Bounded(sourceLen, w.bzError, w.decompressedLen);
      if reply.error != BZ_OK then
        DecompressOutcome(Model(m.totals, withBoth, failed), Failure)
      else if w.written != reply.len || w.streamError then
        DecompressOutcome(Model(m.totals, withBoth, failed), Failure)
      else
        var released := Released(Released(withBoth, m.heap.next), m.heap.next + 1);
        var totals := WithDecompression(m.totals, TimeSample(w.elapsedNs));
        DecompressOutcome(Model(totals, released, m.calls + [DecompressCall(sourceLen, true)]), Success)
  }

  // ---------------------------------------------------------------------------
  // The two phases of run_bzip2

  datatype CompressPhaseResult = CompressPhaseResult(model: Model, status: Status, sourceLen: nat)

  /** Iterations `i` up to `n` of the compress loop, stopping at the first failure;
      `sourceLen` is what the previous call stored. */
  function CompressPhase(m: Model, blockSize: int, cw: nat -> CompressWorld, i: nat, n: int, sourceLen: nat): (r: CompressPhaseResult)
    requires HeapOk(m.heap)
    ensures HeapOk(r.model.heap)
    decreases n - i
  {
    if i >= n then CompressPhaseResult(m, Success, sourceLen)
    else
      var s := CompressStep(m, cw(i), blockSize);
      if s.status == Failure then CompressPhaseResult(s.model, Failure, s.sourceLen)
      else CompressPhase(s.model, blockSize, cw, i + 1, n, s.sourceLen)
  }

  /** Iterations `i` up to `n` of the decompress loop, stopping at the first failure. */
  function DecompressPhase(m: Model, dw: nat -> DecompressWorld, sourceLen: nat, i: nat, n: int): (r: DecompressOutcome)
    requires HeapOk(m.heap)
    ensures HeapOk(r.model.heap)
    decreases n - i
  {
    if i >= n then DecompressOutcome(m, Success)
    else
      var s := DecompressStep(m, dw(i), sourceLen);
      if s.status == Failure then s
      else DecompressPhase(s.model, dw, sourceLen, i + 1, n)
  }

  datatype RunResult = RunResult(model: Model, status: Status, report: Report)

  /** `run_bzip2`: the compress phase, then, if it succeeded, the decompress phase
      with the `source_len` the last compress call stored. The initial `source_len`
      is never read: the decompress loop runs only after a compress call. */
  function RunSpec(m: Model, level: Level, iterations: int, cw: nat -> CompressWorld, dw: nat -> DecompressWorld): RunResult
    requires HeapOk(m.heap)
  {
    var c := CompressPhase(m, BlockSize(level), cw, 0, iterations, 0);
    if c.status == Failure then RunResult(c.model, Failure, Report(None, None, None))
    else
      var meanRatio := Mean(c.model.totals.compressionRatio, iterations);
      var meanTime := Mean(Finite(c.model.totals.compressionTime), iterations);
      var d := DecompressPhase(c.model, dw, c.sourceLen, 0, iterations);
      if d.status == Failure then RunResult(d.model, Failure, Report(Some(meanRatio), Some(meanTime), None))
      else
        var meanDecompression := Mean(Finite(d.model.totals.decompressionTime), iterations);
        RunResult(d.model, Success, Report(Some(meanRatio), Some(meanTime), Some(meanDecompression)))
  }

  // ---------------------------------------------------------------------------
  // What the phases add up to

  /** The time samples of compress calls `i` up to `k`. */
  function CompressTimes(cw: nat -> CompressWorld, i: nat, k: int): (r: seq<real>)
    ensures |r| == if i < k then k - i else 0
    ensures forall j :: 0 <= j < |r| ==> r[j] == TimeSample(cw(i + j).elapsedNs)
    decreases k - i
  {
    if i >= k then [] else [TimeSample(cw(i).elapsedNs)] + CompressTimes(cw, i + 1, k)
  }

  /** The ratio samples of compress calls `i` up to `k`. */
  function CompressRatios(cw: nat -> CompressWorld, i: nat, k: int): (r: seq<Stat>)
    ensures |r| == if i < k then k - i else 0
    ensures forall j :: 0 <= j < |r| ==> r[j] == RatioPercent(cw(i + j).compressedLen, cw(i + j).fileSize)
    decreases k - i
  {
    if i >= k then [] else [RatioPercent(cw(i).compressedLen, cw(i).fileSize)] + CompressRatios(cw, i + 1, k)
  }

  /** The time samples of decompress calls `i` up to `k`. */
  function DecompressTimes(dw: nat -> DecompressWorld, i: nat, k: int): (r: seq<real>)
    ensures |r| == if i < k then k - i else 0
    ensures forall j :: 0 <= j < |r| ==> r[j] == TimeSample(dw(i + j).elapsedNs)
    decreases k - i
  {
    if i >= k then [] else [TimeSample(dw(i).elapsedNs)] + DecompressTimes(dw, i + 1, k)
  }

  /** The compress phase stops at its first failing call `k`: the calls before it
      succeeded and added their samples, the failing one added none, and there is
      no call after it. */
  lemma {:induction false} CompressPhaseStopsAtFirstFailure(
    m: Model, blockSize: int, cw: nat -> CompressWorld, i: nat, n: int, sourceLen: nat, k: nat)
    requires HeapOk(m.heap)
    requires i <= k < n
    requires forall j :: i <= j < k ==> CompressSucceeds(cw(j))
    requires !CompressSucceeds(cw(k))
    ensures var r := CompressPhase(m, blockSize, cw, i, n, sourceLen);
      && r.status == Failure
      && r.sourceLen == cw(k).fileSize
      && r.model.calls == m.calls + Repeat(CompressCall(blockSize, true), k - i) + [CompressCall(blockSize, false)]
      && r.model.totals == AddCompressions(m.totals, CompressTimes(cw, i, k), CompressRatios(cw, i, k))
    decreases k - i
  {
    var s := CompressStep(m, cw(i), blockSize);
    if i < k {
      var time := TimeSample(cw(i).elapsedNs);
      var ratio := RatioPercent(cw(i).compressedLen, cw(i).fileSize);
      assert s.status == Success && s.model.calls == m.calls + [CompressCall(blockSize, true)]
             && s.model.totals == WithCompression(m.totals, time, ratio);
      assert CompressPhase(m, blockSize, cw, i, n, sourceLen) == CompressPhase(s.model, blockSize, cw, i + 1, n, s.sourceLen);
      CompressPhaseStopsAtFirstFailure(s.model, blockSize, cw, i + 1, n, s.sourceLen, k);
      assert Repeat(CompressCall(blockSize, true), k - i) == [CompressCall(blockSize, true)] + Repeat(CompressCall(blockSize, true), k - i - 1);
      assert CompressTimes(cw, i, k) == [time] + CompressTimes(cw, i + 1, k);
      assert CompressRatios(cw, i, k) == [ratio] + CompressRatios(cw, i + 1, k);
      AddCompressionsCons(m.totals, time, ratio, CompressTimes(cw, i + 1, k), CompressRatios(cw, i + 1, k));
    }
  }

  /** When every compress call succeeds, the phase makes all of them, adds every
      sample and leaves `source_len` at the size the last call read. */
  lemma {:induction false} CompressPhaseAllSucceed(
    m: Model, blockSize: int, cw: nat -> CompressWorld, i: nat, n: int, sourceLen: nat)
    requires HeapOk(m.heap)
    requires i <= n
    requires forall j :: i <= j < n ==> CompressSucceeds(cw(j))
    ensures var r := CompressPhase(m, blockSize, cw, i, n, sourceLen);
      && r.status == Success
      && r.sourceLen == (if i < n then cw(n - 1).fileSize else sourceLen)
      && r.model.calls == m.calls + Repeat(CompressCall(blockSize, true), n - i)
      && r.model.totals == AddCompressions(m.totals, CompressTimes(cw, i, n), CompressRatios(cw, i, n))
    decreases n - i
  {
    if i < n {
      var s := CompressStep(m, cw(i), blockSize);
      var ok := CompressCall(blockSize, true);
      var time := TimeSample(cw(i).elapsedNs);
      var ratio := RatioPercent(cw(i).compressedLen, cw(i).fileSize);
      assert CompressPhase(m, blockSize, cw, i, n, sourceLen) == CompressPhase(s.model, blockSize, cw, i + 1, n, s.sourceLen);
      CompressPhaseAllSucceed(s.model, blockSize, cw, i + 1, n, s.sourceLen);
      assert Repeat(ok, n - i) == [ok] + Repeat(ok, n - i - 1);
      AddCompressionsCons(m.totals, time, ratio, CompressTimes(cw, i + 1, n), CompressRatios(cw, i + 1, n));
    }
  }

  /** Every successful compress call keeps both of its buffers: `compress` frees
      nothing once both allocations succeeded. */
  lemma {:induction false} CompressPhaseLeaks(
    m: Model, blockSize: int, cw: nat -> CompressWorld, i: nat, n: int, sourceLen: nat)
    requires HeapOk(m.heap)
    requires i <= n
    requires forall j :: i <= j < n ==> CompressSucceeds(cw(j))
    ensures |CompressPhase(m, blockSize, cw, i, n, sourceLen).model.heap.owned| == |m.heap.owned| + 2 * (n - i)
    decreases n - i
  {
    if i < n {
      var s := CompressStep(m, cw(i), blockSize);
      assert |s.model.heap.owned| == |m.heap.owned| + 2 by {
        var h := m.heap;
        assert h.next !in h.owned && h.next + 1 !in h.owned[h.next := cw(i).fileSize];
      }
      assert CompressPhase(m, blockSize, cw, i, n, sourceLen) == CompressPhase(s.model, blockSize, cw, i + 1, n, s.sourceLen);
      CompressPhaseLeaks(s.model, blockSize, cw, i + 1, n, s.sourceLen);
    }
  }

  /** The decompress phase stops at its first failing call `k`. */
  lemma {:induction false} DecompressPhaseStopsAtFirstFailure(
    m: Model, dw: nat -> DecompressWorld, sourceLen: nat, i: nat, n: int, k: nat)
    requires HeapOk(m.heap)
    requires i <= k < n
    requires forall j :: i <= j < k ==> DecompressSucceeds(dw(j), sourceLen)
    requires !DecompressSucceeds(dw(k), sourceLen)
    ensures var r := DecompressPhase(m, dw, sourceLen, i, n);
      && r.status == Failure
      && r.model.calls == m.calls + Repeat(DecompressCall(sourceLen, true), k - i) + [DecompressCall(sourceLen, false)]
      && r.model.totals == AddDecompressions(m.totals, DecompressTimes(dw, i, k))
    decreases k - i
  {
    var s := DecompressStep(m, dw(i), sourceLen);
    if i < k {
      DecompressPhaseStopsAtFirstFailure(s.model, dw, sourceLen, i + 1, n, k);
      assert Repeat(DecompressCall(sourceLen, true), k - i) == [DecompressCall(sourceLen, true)] + Repeat(DecompressCall(sourceLen, true), k - i - 1);
      assert DecompressTimes(dw, i, k) == [TimeSample(dw(i).elapsedNs)] + DecompressTimes(dw, i + 1, k);
      AddDecompressionsCons(m.totals, TimeSample(dw(i).elapsedNs), DecompressTimes(dw, i + 1, k));
    }
  }

  /** When every decompress call succeeds, the phase makes all of them, adds every
      sample and releases every buffer it obtained. */
  lemma {:induction false} DecompressPhaseAllSucceed(
    m: Model, dw: nat -> DecompressWorld, sourceLen: nat, i: nat, n: int)
    requires HeapOk(m.heap)
    requires i <= n
    requires forall j :: i <= j < n ==> DecompressSucceeds(dw(j), sourceLen)
    ensures var r := DecompressPhase(m, dw, sourceLen, i, n);
      && r.status == Success
      && r.model.calls == m.calls + Repeat(DecompressCall(sourceLen, true), n - i)
      && r.model.totals == AddDecompressions(m.totals, DecompressTimes(dw, i, n))
      && r.model.heap.owned == m.heap.owned
    decreases n - i
  {
    if i < n {
      var s := DecompressStep(m, dw(i), sourceLen);
      DecompressPhaseAllSucceed(s.model, dw, sourceLen, i + 1, n);
      assert Repeat(DecompressCall(sourceLen, true), n - i) == [DecompressCall(sourceLen, true)] + Repeat(DecompressCall(sourceLen, true), n - i - 1);
    }
  }

  /** A compress failure ends the run before any decompress call and prints nothing. */
  lemma RunStopsInCompressPhase(
    m: Model, level: Level, iterations: int, cw: nat -> CompressWorld, dw: nat -> DecompressWorld, k: nat)
    requires HeapOk(m.heap)
    requires k < iterations
    requires forall j :: 0 <= j < k ==> CompressSucceeds(cw(j))
    requires !CompressSucceeds(cw(k))
    ensures var r := RunSpec(m, level, iterations, cw, dw);
      && r.status == Failure
      && r.report == Report(None, None, None)
      && r.model.calls == m.calls + Repeat(CompressCall(BlockSize(level), true), k) + [CompressCall(BlockSize(level), false)]
  {
    CompressPhaseStopsAtFirstFailure(m, BlockSize(level), cw, 0, iterations, 0, k);
  }

  /** As written, a run fails at the first compress call whose output needs more
      than `buf_size + 600` bytes, even when it is within the documented bound:
      that call adds no sample, no decompress call follows and nothing is printed. */
  lemma RunFailsBeyondAsWrittenCapacity(
    m: Model, level: Level, iterations: int, cw: nat -> CompressWorld, dw: nat -> DecompressWorld, k: nat)
    requires HeapOk(m.heap)
    requires k < iterations
    requires forall j :: 0 <= j < k ==> CompressSucceeds(cw(j))
    requires cw(k).bufferAvailable && cw(k).outputAvailable && cw(k).bzError == BZ_OK
    requires OutputSizeAsWritten(cw(k).fileSize) < cw(k).compressedLen <= OutputSize(cw(k).fileSize)
    ensures var r := RunSpec(m, level, iterations, cw, dw);
      && r.status == Failure
      && r.report == Report(None, None, None)
      && r.model.calls == m.calls + Repeat(CompressCall(BlockSize(level), true), k) + [CompressCall(BlockSize(level), false)]
  {
    RunStopsInCompressPhase(m, level, iterations, cw, dw, k);
  }

  /** After a complete compress phase every decompress call is given the size of the
      file the last compress call read; a decompress failure ends the run after the
      compress means were printed. */
  lemma RunStopsInDecompressPhase(
    m: Model, level: Level, iterations: int, cw: nat -> CompressWorld, dw: nat -> DecompressWorld, k: nat)
    requires HeapOk(m.heap)
    requires k < iterations
    requires forall j :: 0 <= j < iterations ==> CompressSucceeds(cw(j))
    requires forall j :: 0 <= j < k ==> DecompressSucceeds(dw(j), cw(iterations - 1).fileSize)
    requires !DecompressSucceeds(dw(k), cw(iterations - 1).fileSize)
    ensures var r := RunSpec(m, level, iterations, cw, dw);
      var sourceLen := cw(iterations - 1).fileSize;
      && r.status == Failure
      && r.report.meanRatio.Some? && r.report.meanCompressionTime.Some? && r.report.meanDecompressionTime.None?
      && r.model.calls == m.calls + Repeat(CompressCall(BlockSize(level), true), iterations)
                          + Repeat(DecompressCall(sourceLen, true), k) + [DecompressCall(sourceLen, false)]
  {
    var c := CompressPhase(m, BlockSize(level), cw, 0, iterations, 0);
    CompressPhaseAllSucceed(m, BlockSize(level), cw, 0, iterations, 0);
    DecompressPhaseStopsAtFirstFailure(c.model, dw, c.sourceLen, 0, iterations, k);
  }

  /** A run in which every call succeeds makes every call and, starting from zeroed
      accumulators, prints the means of the samples. */
  lemma RunAllSucceed(m: Model, level: Level, iterations: nat, cw: nat -> CompressWorld, dw: nat -> DecompressWorld)
    requires HeapOk(m.heap)
    requires 0 < iterations
    requires forall j :: 0 <= j < iterations ==> CompressSucceeds(cw(j))
    requires forall j :: 0 <= j < iterations ==> DecompressSucceeds(dw(j), cw(iterations - 1).fileSize)
    ensures var r := RunSpec(m, level, iterations, cw, dw);
      var sourceLen := cw(iterations - 1).fileSize;
      && r.status == Success
      && r.model.calls == m.calls + Repeat(CompressCall(BlockSize(level), true), iterations)
                          + Repeat(DecompressCall(sourceLen, true), iterations)
      && (m.totals == ZeroTotals ==>
           r.report == Report(
             Some(Mean(SumStat(CompressRatios(cw, 0, iterations)), iterations)),
             Some(Mean(Finite(Sum(CompressTimes(cw, 0, iterations))), iterations)),
             Some(Mean(Finite(Sum(DecompressTimes(dw, 0, iterations))), iterations))))
  {
    var c := CompressPhase(m, BlockSize(level), cw, 0, iterations, 0);
    var sourceLen := cw(iterations - 1).fileSize;
    assert && c.status == Success && c.sourceLen == sourceLen
           && c.model.calls == m.calls + Repeat(CompressCall(BlockSize(level), true), iterations)
           && c.model.totals == AddCompressions(m.totals, CompressTimes(cw, 0, iterations), CompressRatios(cw, 0, iterations)) by {
      CompressPhaseAllSucceed(m, BlockSize(level), cw, 0, iterations, 0);
    }
    var d := DecompressPhase(c.model, dw, c.sourceLen, 0, iterations);
    assert && d.status == Success
           && d.model.calls == c.model.calls + Repeat(DecompressCall(sourceLen, true), iterations)
           && d.model.totals == AddDecompressions(c.model.totals, DecompressTimes(dw, 0, iterations)) by {
      DecompressPhaseAllSucceed(c.model, dw, c.sourceLen, 0, iterations);
    }
    assert RunSpec(m, level, iterations, cw, dw) == RunResult(d.model, Success, Report(
      Some(Mean(c.model.totals.compressionRatio, iterations)),
      Some(Mean(Finite(c.model.totals.compressionTime), iterations)),
      Some(Mean(Finite(d.model.totals.decompressionTime), iterations))));
    if m.totals == ZeroTotals {
      var ratios := SumStat(CompressRatios(cw, 0, iterations));
      assert c.model.totals.compressionRatio == ratios by {
        assert c.model.totals.compressionRatio == Add(Finite(0.0), ratios);
      }
      assert c.model.totals.compressionTime == Sum(CompressTimes(cw, 0, iterations));
      assert d.model.totals.decompressionTime == Sum(DecompressTimes(dw, 0, iterations));
    }
  }

  /** With no iterations (`-t 0`, or a negative count from `atoi`) neither loop
      makes a call and nothing changes. The printed means are the old sums divided
      by the count: from zeroed sums they are 0 for a negative count and not finite
      for 0. */
  lemma RunWithoutIterations(m: Model, level: Level, iterations: int, cw: nat -> CompressWorld, dw: nat -> DecompressWorld)
    requires HeapOk(m.heap)
    requires iterations <= 0
    ensures var r := RunSpec(m, level, iterations, cw, dw);
      && r.status == Success
      && r.model == m
      && r.report.meanRatio.Some? && r.report.meanCompressionTime.Some? && r.report.meanDecompressionTime.Some?
      && (iterations == 0 ==> r.report == Report(Some(NotFinite), Some(NotFinite), Some(NotFinite)))
      && (iterations < 0 && m.totals == ZeroTotals ==>
           r.report == Report(Some(Finite(0.0)), Some(Finite(0.0)), Some(Finite(0.0))))
  {
  }

  /** The printed mean ratio is a number exactly when no source file was empty. */
  lemma MeanRatioFinite(cw: nat -> CompressWorld, iterations: nat)
    requires 0 < iterations
    ensures Mean(SumStat(CompressRatios(cw, 0, iterations)), iterations).Finite?
        <==> forall j :: 0 <= j < iterations ==> cw(j).fileSize > 0
  {
    var ratios := CompressRatios(cw, 0, iterations);
    SumStatFinite(ratios);
    assert forall j :: 0 <= j < iterations ==> ratios[j] == RatioPercent(cw(j).compressedLen, cw(j).fileSize);
  }

  // ---------------------------------------------------------------------------
  // The unit itself

  /** The static state of bzip2_compression.c and the heap its buffers come from. */
  class Bzip2Unit {
    const stats: Accumulators
    const heap: Heap
    ghost var calls: seq<Call>

    ghost predicate Valid()
      reads this, heap
    {
      heap.Valid()
    }

    ghost function Abstract(): Model
      reads this, stats, heap
    {
      Model(stats.Value(), heap.State(), calls)
    }

    constructor ()
      ensures Valid() && fresh(stats) && fresh(heap)
      ensures Abstract() == Model(ZeroTotals, HeapState(map[], 0), [])
    {
      stats := new Accumulators();
      heap := new Heap();
      calls := [];
    }

    /** `compress`: `*source_len` is stored before anything can fail. */
    method Compress(w: CompressWorld, blockSize: int) returns (status: Status, sourceLen: nat)
      requires Valid()
      modifies this, stats, heap
      ensures Valid()
      ensures CompressStep(old(Abstract()), w, blockSize) == CompressOutcome(Abstract(), status, sourceLen)
    {
      var bufSize := w.fileSize;
      sourceLen := bufSize;
      var buf := heap.Malloc(bufSize, w.bufferAvailable);
      if buf.None? {
        calls := calls + [CompressCall(blockSize, false)];
        return Failure, sourceLen;
      }
      var outputSize := OutputSizeAsWritten(bufSize);
      var output := heap.Malloc(outputSize, w.outputAvailable);
      if output.None? {
        heap.Free(buf.value);
        calls := calls + [CompressCall(blockSize, false)];
        return Failure, sourceLen;
      }
      // The input is read into `buf` (file contents are not modelled).
      var reply := Bounded(outputSize, w.bzError, w.compressedLen);
      if reply.error != BZ_OK {
        calls := calls + [CompressCall(blockSize, false)];
        return Failure, sourceLen;
      }
      // `reply.len` bytes are written to the archive.
      stats.AddCompression(TimeSample(w.elapsedNs), RatioPercent(reply.len, bufSize));
      calls := calls + [CompressCall(blockSize, true)];
      status := Success;
    }

    /** `decompress`, with the corrected reaction to failed allocations. */
    method Decompress(w: DecompressWorld, sourceLen: nat) returns (status: Status)
      requires Valid()
      modifies this, stats, heap
      ensures Valid()
      ensures DecompressStep(old(Abstract()), w, sourceLen) == DecompressOutcome(Abstract(), status)
    {
      var input := heap.Malloc(w.archSize, w.inputAvailable);
      var output := heap.Malloc(sourceLen, w.outputAvailable);
      var check := DecompressAllocCheck(input.Some?, output.Some?);
      if check == ReleaseOutputAndFail {
        heap.Free(output.value);
      } else if check == ReleaseInputAndFail {
        heap.Free(input.value);
      }
      if check != Proceed {
        calls := calls + [DecompressCall(sourceLen, false)];
        return Failure;
      }
      var reply := Bounded(sourceLen, w.bzError, w.decompressedLen);
      if reply.error != BZ_OK || w.written != reply.len || w.streamError {
        calls := calls + [DecompressCall(sourceLen, false)];
        return Failure;
      }
      heap.Free(input.value);
      heap.Free(output.value);
      stats.AddDecompression(TimeSample(w.elapsedNs));
      calls := calls + [DecompressCall(sourceLen, true)];
      status := Success;
    }

    /** The compress loop of `run_bzip2`: `iterations` calls, rewinding source and
        archive after each (stream positions are not modelled), returning at the
        first failure; `sourceLen` is what the last call stored. */
    method CompressLoop(blockSize: int, iterations: int, cw: nat -> CompressWorld) returns (status: Status, sourceLen: nat)
      requires Valid()
      modifies this, stats, heap
      ensures Valid()
      ensures CompressPhase(old(Abstract()), blockSize, cw, 0, iterations, 0) == CompressPhaseResult(Abstract(), status, sourceLen)
    {
      sourceLen := 0;
      var i: nat := 0;
      while i < iterations
        invariant Valid()
        invariant CompressPhase(Abstract(), blockSize, cw, i, iterations, sourceLen) == CompressPhase(old(Abstract()), blockSize, cw, 0, iterations, 0)
        decreases iterations - i
      {
        var ret, len := Compress(cw(i), blockSize);
        sourceLen := len;
        if ret == Failure {
          return Failure, sourceLen;
        }
        i := i + 1;
      }
      status := Success;
    }

    /** The decompress loop of `run_bzip2`: `iterations` calls, rewinding the archive
        after each, returning at the first failure. */
    method DecompressLoop(iterations: int, dw: nat -> DecompressWorld, sourceLen: nat) returns (status: Status)
      requires Valid()
      modifies this, stats, heap
      ensures Valid()
      ensures DecompressPhase(old(Abstract()), dw, sourceLen, 0, iterations) == DecompressOutcome(Abstract(), status)
    {
      var i: nat := 0;
      while i < iterations
        invariant Valid()
        invariant DecompressPhase(Abstract(), dw, sourceLen, i, iterations) == DecompressPhase(old(Abstract()), dw, sourceLen, 0, iterations)
        decreases iterations - i
      {
        var ret := Decompress(dw(i), sourceLen);
        if ret == Failure {
          return Failure;
        }
        i := i + 1;
      }
      status := Success;
    }

    /** `run_bzip2`: the compress loop, the two compress means, the decompress loop
        and the decompress mean. */
    method RunBzip2(compressionLevel: Level, iterations: int, cw: nat -> CompressWorld, dw: nat -> DecompressWorld)
      returns (status: Status, report: Report)
      requires Valid()
      modifies this, stats, heap
      ensures Valid()
      ensures RunSpec(old(Abstract()), compressionLevel, iterations, cw, dw) == RunResult(Abstract(), status, report)
    {
      var level := if compressionLevel == Low then 1 else 9;
      var ret, sourceLen := CompressLoop(level, iterations, cw);
      if ret == Failure {
        return Failure, Report(None, None, None);
      }
      var meanRatio := Mean(stats.compressionRatio, iterations);
      var meanTime := Mean(Finite(stats.compressionTime), iterations);
      ret := DecompressLoop(iterations, dw, sourceLen);
      if ret == Failure {
        return Failure, Report(Some(meanRatio), Some(meanTime), None);
      }
      var meanDecompression := Mean(Finite(stats.decompressionTime), iterations);
      return Success, Report(Some(meanRatio), Some(meanTime), Some(meanDecompression));
    }
  }
}
