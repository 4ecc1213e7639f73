/** The snappy codec unit in its statistics build: `compress` and `decompress`
    with their buffer bookkeeping and statistics, and the two-phase benchmark loop
    `run_snappy`. The snappy library, the C runtime and the clock are oracles:
    every call takes as a parameter the answers they give on that call. */
module Snappy {
  import opened Bench

  // ---------------------------------------------------------------------------
  // What the outside world answers

  /** The answers one call of `compress` gets. */
  datatype CompressWorld = CompressWorld(
    fileSize: nat,              // get_file_size(source)
    bufferAvailable: bool,      // malloc of the input buffer succeeds
    maxCompressedLength: nat,   // snappy_max_compressed_length(buf_len)
    compressedAvailable: bool,  // malloc of the compressed buffer succeeds
    compressedLen: nat,         // what snappy_compress leaves in `compressed_len`
    elapsedNs: nat)             // tv_nsec of the measured interval

  /** The answers one call of `decompress` gets. */
  datatype DecompressWorld = DecompressWorld(
    archSize: nat,                        // get_file_size(arch)
    inputAvailable: bool,                 // malloc of the archive buffer succeeds
    uncompressedLength: Option<nat>,      // what snappy_uncompressed_length finds, if it succeeds
    outputAvailable: bool,                // malloc of the output buffer succeeds
    elapsedNs: nat)

  /** The size `decompress` allocates for the output: `uncompressed_len` starts at
      0 and keeps that value when snappy_uncompressed_length fails. */
  function OutputCapacity(w: DecompressWorld): (capacity: nat)
    ensures w.uncompressedLength.Some? ==> capacity == w.uncompressedLength.value
    ensures w.uncompressedLength.None? ==> capacity == 0
  {
    match w.uncompressedLength
    case Some(len) => len
    case None => 0
  }

  /** The value `uncompressed_len` holds when `decompress` returns. When the archive
      buffer cannot be allocated the call returns before snappy_uncompressed_length
      is reached, so the value is still the initial 0. */
  function RecordedCapacity(w: DecompressWorld): (len: nat)
    ensures !w.inputAvailable ==> len == 0
    ensures w.inputAvailable ==> len == OutputCapacity(w)
  {
    if w.inputAvailable then OutputCapacity(w) else 0
  }

  /** The results of snappy_compress and snappy_uncompress are not looked at, so a
      call succeeds exactly when its two allocations do. */
  ghost predicate CompressSucceeds(w: CompressWorld)
  {
    w.bufferAvailable && w.compressedAvailable
  }

  ghost predicate DecompressSucceeds(w: DecompressWorld)
  {
    w.inputAvailable && w.outputAvailable
  }

  // ---------------------------------------------------------------------------
  // The state of the unit

  /** One call of `compress`, or of `decompress` with the value `uncompressed_len`
      held when it returned, and whether it succeeded. */
  datatype Call = CompressCall(ok: bool) | DecompressCall(outputCapacity: nat, ok: bool)

  /** The unit's accumulators, the heap, and the calls made so far. */
  datatype Model = Model(totals: Totals, heap: HeapState, calls: seq<Call>)

  datatype Outcome = Outcome(model: Model, status: Status)

  /** What `compress` does to the unit's state. */
  function CompressStep(m: Model, w: CompressWorld): (r: Outcome)
    requires HeapOk(m.heap)
    ensures HeapOk(r.model.heap)
    ensures r.status == Success <==> CompressSucceeds(w)
    ensures r.model.calls == m.calls + [CompressCall(r.status == Success)]
    ensures r.status == Success ==>
      r.model.totals == WithCompression(m.totals, TimeSample(w.elapsedNs), RatioPercent(w.compressedLen, w.fileSize))
    ensures r.status == Failure ==> r.model.totals == m.totals
    ensures r.model.heap.owned == m.heap.owned
  {
    var failed := m.calls + [CompressCall(false)];
    if !w.bufferAvailable then
      Outcome(m.(calls := failed), Failure)
    else
      var withBuffer := Allocated(m.heap, w.fileSize);
      AllocateThenRelease(m.heap, w.fileSize);
      if !w.compressedAvailable then
        Outcome(Model(m.totals, Released(withBuffer, m.heap.next), failed), Failure)
      else
        var withBoth := Allocated(withBuffer, w.maxCompressedLength);
        assert m.heap.next + 1 !in withBuffer.owned;
        var totals := WithCompression(m.totals, TimeSample(w.elapsedNs), RatioPercent(w.compressedLen, w.fileSize));
        var released := Released(Released(withBoth, m.heap.next), m.heap.next + 1);
        Outcome(Model(totals, released, m.calls + [CompressCall(true)]), Success)
  }

  /** What `decompress` does to the unit's state: on success both buffers stay allocated. */
  function DecompressStep(m: Model, w: DecompressWorld): (r: Outcome)
    requires HeapOk(m.heap)
    ensures HeapOk(r.model.heap)
    ensures r.status == Success <==> DecompressSucceeds(w)
    ensures r.model.calls == m.calls + [DecompressCall(RecordedCapacity(w), r.status == Success)]
    ensures r.status == Success ==> r.model.totals == WithDecompression(m.totals, TimeSample(w.elapsedNs))
    ensures r.status == Failure ==> r.model.totals == m.totals
    ensures r.status == Failure ==> r.model.heap.owned == m.heap.owned
    ensures r.status == Success ==>
      r.model.heap.owned == m.heap.owned[m.heap.next := w.archSize][m.heap.next + 1 := OutputCapacity(w)]
  {
    var capacity := OutputCapacity(w);
    var failed := m.calls + [DecompressCall(capacity, false)];
    if !w.inputAvailable then
      Outcome(m.(calls := m.calls + [DecompressCall(0, false)]), Failure)
    else
      var withInput := Allocated(m.heap, w.archSize);
      AllocateThenRelease(m.heap, w.archSize);
      if !w.outputAvailable then
        Outcome(Model(m.totals, Released(withInput, m.heap.next), failed), Failure)
      else
        var totals := WithDecompression(m.totals, TimeSample(w.elapsedNs));
        Outcome(Model(totals, Allocated(withInput, capacity), m.calls + [DecompressCall(capacity, true)]), Success)
  }

  // ---------------------------------------------------------------------------
  // The two phases of run_snappy

  /** Iterations `i` up to `n` of the compress loop, stopping at the first failure. */
  function CompressPhase(m: Model, cw: nat -> CompressWorld, i: nat, n: int): (r: Outcome)
    requires HeapOk(m.heap)
    ensures HeapOk(r.model.heap)
    decreases n - i
  {
    if i >= n then Outcome(m, Success)
    else
      var s := CompressStep(m, cw(i));
      if s.status == Failure then s else CompressPhase(s.model, cw, i + 1, n)
  }

  /** Iterations `i` up to `n` of the decompress loop, stopping at the first failure. */
  function DecompressPhase(m: Model, dw: nat -> DecompressWorld, i: nat, n: int): (r: Outcome)
    requires HeapOk(m.heap)
    ensures HeapOk(r.model.heap)
    decreases n - i
  {
    if i >= n then Outcome(m, Success)
    else
      var s := DecompressStep(m, dw(i));
      if s.status == Failure then s else DecompressPhase(s.model, dw, i + 1, n)
  }

  datatype RunResult = RunResult(model: Model, status: Status, report: Report)

  /** `run_snappy` as built with STATS_MODE: the compress phase, its two means, the
      decompress phase and its mean. */
  function RunSpec(m: Model, iterations: int, cw: nat -> CompressWorld, dw: nat -> DecompressWorld): RunResult
    requires HeapOk(m.heap)
  {
    var c := CompressPhase(m, cw, 0, iterations);
    if c.status == Failure then RunResult(c.model, Failure, Report(None, None, None))
    else
      var meanRatio := Mean(c.model.totals.compressionRatio, iterations);
      var meanTime := Mean(Finite(c.model.totals.compressionTime), iterations);
      var d := DecompressPhase(c.model, dw, 0, iterations);
      if d.status == Failure then RunResult(d.model, Failure, Report(Some(meanRatio), Some(meanTime), None))
      else
        var meanDecompression := Mean(Finite(d.model.totals.decompressionTime), iterations);
        RunResult(d.model, Success, Report(Some(meanRatio), Some(meanTime), Some(meanDecompression)))
  }

  // ---------------------------------------------------------------------------
  // What the phases add up to

  /** The time samples of compress calls `i` up to `k`. */
  function CompressTimes(cw: nat -> CompressWorld, i: nat, k: int): (r: seq<real>)
    ensures |r| == if i < k then k - i else 0
    ensures forall j :: 0 <= j < |r| ==> r[j] == TimeSample(cw(i + j).elapsedNs)
    decreases k - i
  {
    if i >= k then [] else [TimeSample(cw(i).elapsedNs)] + CompressTimes(cw, i + 1, k)
  }

  /** The ratio samples of compress calls `i` up to `k`. */
  function CompressRatios(cw: nat -> CompressWorld, i: nat, k: int): (r: seq<Stat>)
    ensures |r| == if i < k then k - i else 0
    ensures forall j :: 0 <= j < |r| ==> r[j] == RatioPercent(cw(i + j).compressedLen, cw(i + j).fileSize)
    decreases k - i
  {
    if i >= k then [] else [RatioPercent(cw(i).compressedLen, cw(i).fileSize)] + CompressRatios(cw, i + 1, k)
  }

  /** The time samples of decompress calls `i` up to `k`. */
  function DecompressTimes(dw: nat -> DecompressWorld, i: nat, k: int): (r: seq<real>)
    ensures |r| == if i < k then k - i else 0
    ensures forall j :: 0 <= j < |r| ==> r[j] == TimeSample(dw(i + j).elapsedNs)
    decreases k - i
  {
    if i >= k then [] else [TimeSample(dw(i).elapsedNs)] + DecompressTimes(dw, i + 1, k)
  }

  /** The trace entries of decompress calls `i` up to `k` when all of them succeed. */
  function DecompressCalls(dw: nat -> DecompressWorld, i: nat, k: int): (r: seq<Call>)
    ensures |r| == if i < k then k - i else 0
    ensures forall j :: 0 <= j < |r| ==> r[j] == DecompressCall(OutputCapacity(dw(i + j)), true)
    decreases k - i
  {
    if i >= k then [] else [DecompressCall(OutputCapacity(dw(i)), true)] + DecompressCalls(dw, i + 1, k)
  }

  /** The compress phase stops at its first failing call `k`. */
  lemma {:induction false} CompressPhaseStopsAtFirstFailure(m: Model, cw: nat -> CompressWorld, i: nat, n: int, k: nat)
    requires HeapOk(m.heap)
    requires i <= k < n
    requires forall j :: i <= j < k ==> CompressSucceeds(cw(j))
    requires !CompressSucceeds(cw(k))
    ensures var r := CompressPhase(m, cw, i, n);
      && r.status == Failure
      && r.model.calls == m.calls + Repeat(CompressCall(true), k - i) + [CompressCall(false)]
      && r.model.totals == AddCompressions(m.totals, CompressTimes(cw, i, k), CompressRatios(cw, i, k))
    decreases k - i
  {
    if i < k {
      var s := CompressStep(m, cw(i));
      var time := TimeSample(cw(i).elapsedNs);
      var ratio := RatioPercent(cw(i).compressedLen, cw(i).fileSize);
      assert s.status == Success && s.model.calls == m.calls + [CompressCall(true)]
             && s.model.totals == WithCompression(m.totals, time, ratio);
      assert CompressPhase(m, cw, i, n) == CompressPhase(s.model, cw, i + 1, n);
      CompressPhaseStopsAtFirstFailure(s.model, cw, i + 1, n, k);
      assert Repeat(CompressCall(true), k - i) == [CompressCall(true)] + Repeat(CompressCall(true), k - i - 1);
      assert CompressTimes(cw, i, k) == [time] + CompressTimes(cw, i + 1, k);
      assert CompressRatios(cw, i, k) == [ratio] + CompressRatios(cw, i + 1, k);
      AddCompressionsCons(m.totals, time, ratio, CompressTimes(cw, i + 1, k), CompressRatios(cw, i + 1, k));
    }
  }

  /** When every compress call succeeds, the phase makes all of them, adds every
      sample, and gives back every buffer it obtained. */
  lemma {:induction false} CompressPhaseAllSucceed(m: Model, cw: nat -> CompressWorld, i: nat, n: int)
    requires HeapOk(m.heap)
    requires i <= n
    requires forall j :: i <= j < n ==> CompressSucceeds(cw(j))
    ensures var r := CompressPhase(m, cw, i, n);
      && r.status == Success
      && r.model.calls == m.calls + Repeat(CompressCall(true), n - i)
      && r.model.totals == AddCompressions(m.totals, CompressTimes(cw, i, n), CompressRatios(cw, i, n))
      && r.model.heap.owned == m.heap.owned
    decreases n - i
  {
    if i < n {
      var s := CompressStep(m, cw(i));
      var time := TimeSample(cw(i).elapsedNs);
      var ratio := RatioPercent(cw(i).compressedLen, cw(i).fileSize);
      assert CompressPhase(m, cw, i, n) == CompressPhase(s.model, cw, i + 1, n);
      CompressPhaseAllSucceed(s.model, cw, i + 1, n);
      assert Repeat(CompressCall(true), n - i) == [CompressCall(true)] + Repeat(CompressCall(true), n - i - 1);
      AddCompressionsCons(m.totals, time, ratio, CompressTimes(cw, i + 1, n), CompressRatios(cw, i + 1, n));
    }
  }

  /** The decompress phase stops at its first failing call `k`. */
  lemma {:induction false} DecompressPhaseStopsAtFirstFailure(m: Model, dw: nat -> DecompressWorld, i: nat, n: int, k: nat)
    requires HeapOk(m.heap)
    requires i <= k < n
    requires forall j :: i <= j < k ==> DecompressSucceeds(dw(j))
    requires !DecompressSucceeds(dw(k))
    ensures var r := DecompressPhase(m, dw, i, n);
      && r.status == Failure
      && r.model.calls == m.calls + DecompressCalls(dw, i, k) + [DecompressCall(RecordedCapacity(dw(k)), false)]
      && r.model.totals == AddDecompressions(m.totals, DecompressTimes(dw, i, k))
    decreases k - i
  {
    if i < k {
      var s := DecompressStep(m, dw(i));
      var ok := DecompressCall(OutputCapacity(dw(i)), true);
      assert s.status == Success && s.model.calls == m.calls + [ok]
             && s.model.totals == WithDecompression(m.totals, TimeSample(dw(i).elapsedNs));
      assert DecompressPhase(m, dw, i, n) == DecompressPhase(s.model, dw, i + 1, n);
      DecompressPhaseStopsAtFirstFailure(s.model, dw, i + 1, n, k);
      assert DecompressCalls(dw, i, k) == [ok] + DecompressCalls(dw, i + 1, k);
      assert m.calls + [ok] + DecompressCalls(dw, i + 1, k) == m.calls + DecompressCalls(dw, i, k);
      AddDecompressionsCons(m.totals, TimeSample(dw(i).elapsedNs), DecompressTimes(dw, i + 1, k));
    }
  }

  /** When every decompress call succeeds, the phase makes all of them and adds every sample. */
  lemma {:induction false} DecompressPhaseAllSucceed(m: Model, dw: nat -> DecompressWorld, i: nat, n: int)
    requires HeapOk(m.heap)
    requires i <= n
    requires forall j :: i <= j < n ==> DecompressSucceeds(dw(j))
    ensures var r := DecompressPhase(m, dw, i, n);
      && r.status == Success
      && r.model.calls == m.calls + DecompressCalls(dw, i, n)
      && r.model.totals == AddDecompressions(m.totals, DecompressTimes(dw, i, n))
    decreases n - i
  {
    if i < n {
      var s := DecompressStep(m, dw(i));
      var ok := DecompressCall(OutputCapacity(dw(i)), true);
      assert s.status == Success && s.model.calls == m.calls + [ok]
             && s.model.totals == WithDecompression(m.totals, TimeSample(dw(i).elapsedNs));
      assert DecompressPhase(m, dw, i, n) == DecompressPhase(s.model, dw, i + 1, n);
      DecompressPhaseAllSucceed(s.model, dw, i + 1, n);
      assert DecompressCalls(dw, i, n) == [ok] + DecompressCalls(dw, i + 1, n);
      assert m.calls + [ok] + DecompressCalls(dw, i + 1, n) == m.calls + DecompressCalls(dw, i, n);
      AddDecompressionsCons(m.totals, TimeSample(dw(i).elapsedNs), DecompressTimes(dw, i + 1, n));
    }
  }

  /** Every successful decompress call keeps both of its buffers: `decompress`
      frees nothing on success. */
  lemma {:induction false} DecompressPhaseLeaks(m: Model, dw: nat -> DecompressWorld, i: nat, n: int)
    requires HeapOk(m.heap)
    requires i <= n
    requires forall j :: i <= j < n ==> DecompressSucceeds(dw(j))
    ensures |DecompressPhase(m, dw, i, n).model.heap.owned| == |m.heap.owned| + 2 * (n - i)
    decreases n - i
  {
    if i < n {
      var s := DecompressStep(m, dw(i));
      assert |s.model.heap.owned| == |m.heap.owned| + 2 by {
        var h := m.heap;
        assert h.next !in h.owned && h.next + 1 !in h.owned[h.next := dw(i).archSize];
      }
      assert DecompressPhase(m, dw, i, n) == DecompressPhase(s.model, dw, i + 1, n);
      DecompressPhaseLeaks(s.model, dw, i + 1, n);
    }
  }

  /** A compress failure ends the run before any decompress call and prints nothing. */
  lemma RunStopsInCompressPhase(m: Model, iterations: int, cw: nat -> CompressWorld, dw: nat -> DecompressWorld, k: nat)
    requires HeapOk(m.heap)
    requires k < iterations
    requires forall j :: 0 <= j < k ==> CompressSucceeds(cw(j))
    requires !CompressSucceeds(cw(k))
    ensures var r := RunSpec(m, iterations, cw, dw);
      && r.status == Failure
      && r.report == Report(None, None, None)
      && r.model.calls == m.calls + Repeat(CompressCall(true), k) + [CompressCall(false)]
  {
    CompressPhaseStopsAtFirstFailure(m, cw, 0, iterations, k);
  }

  /** A decompress failure ends the run after the compress means were printed. */
  lemma RunStopsInDecompressPhase(m: Model, iterations: int, cw: nat -> CompressWorld, dw: nat -> DecompressWorld, k: nat)
    requires HeapOk(m.heap)
    requires k < iterations
    requires forall j :: 0 <= j < iterations ==> CompressSucceeds(cw(j))
    requires forall j :: 0 <= j < k ==> DecompressSucceeds(dw(j))
    requires !DecompressSucceeds(dw(k))
    ensures var r := RunSpec(m, iterations, cw, dw);
      && r.status == Failure
      && r.report.meanRatio.Some? && r.report.meanCompressionTime.Some? && r.report.meanDecompressionTime.None?
      && r.model.calls == m.calls + Repeat(CompressCall(true), iterations)
                          + DecompressCalls(dw, 0, k) + [DecompressCall(RecordedCapacity(dw(k)), false)]
  {
    var c := CompressPhase(m, cw, 0, iterations);
    assert c.status == Success && c.model.calls == m.calls + Repeat(CompressCall(true), iterations) by {
      CompressPhaseAllSucceed(m, cw, 0, iterations);
    }
    DecompressPhaseStopsAtFirstFailure(c.model, dw, 0, iterations, k);
  }

  /** A run in which every call succeeds makes every call and, starting from zeroed
      accumulators, prints the means of the samples. */
  lemma RunAllSucceed(m: Model, iterations: nat, cw: nat -> CompressWorld, dw: nat -> DecompressWorld)
    requires HeapOk(m.heap)
    requires forall j :: 0 <= j < iterations ==> CompressSucceeds(cw(j))
    requires forall j :: 0 <= j < iterations ==> DecompressSucceeds(dw(j))
    ensures var r := RunSpec(m, iterations, cw, dw);
      && r.status == Success
      && r.model.calls == m.calls + Repeat(CompressCall(true), iterations) + DecompressCalls(dw, 0, iterations)
      && (m.totals == ZeroTotals ==>
           r.report == Report(
             Some(Mean(SumStat(CompressRatios(cw, 0, iterations)), iterations)),
             Some(Mean(Finite(Sum(CompressTimes(cw, 0, iterations))), iterations)),
             Some(Mean(Finite(Sum(DecompressTimes(dw, 0, iterations))), iterations))))
  {
    var c := CompressPhase(m, cw, 0, iterations);
    assert && c.status == Success
           && c.model.calls == m.calls + Repeat(CompressCall(true), iterations)
           && c.model.totals == AddCompressions(m.totals, CompressTimes(cw, 0, iterations), CompressRatios(cw, 0, iterations)) by {
      CompressPhaseAllSucceed(m, cw, 0, iterations);
    }
    var d := DecompressPhase(c.model, dw, 0, iterations);
    assert && d.status == Success
           && d.model.calls == c.model.calls + DecompressCalls(dw, 0, iterations)
           && d.model.totals == AddDecompressions(c.model.totals, DecompressTimes(dw, 0, iterations)) by {
      DecompressPhaseAllSucceed(c.model, dw, 0, iterations);
    }
    assert RunSpec(m, iterations, cw, dw) == RunResult(d.model, Success, Report(
      Some(Mean(c.model.totals.compressionRatio, iterations)),
      Some(Mean(Finite(c.model.totals.compressionTime), iterations)),
      Some(Mean(Finite(d.model.totals.decompressionTime), iterations))));
    if m.totals == ZeroTotals {
      var ratios := SumStat(CompressRatios(cw, 0, iterations));
      assert c.model.totals.compressionRatio == ratios by {
        assert c.model.totals.compressionRatio == Add(Finite(0.0), ratios);
      }
      assert c.model.totals.compressionTime == Sum(CompressTimes(cw, 0, iterations));
      assert d.model.totals.decompressionTime == Sum(DecompressTimes(dw, 0, iterations));
    }
  }

  /** With no iterations (`-t 0`, or a negative count from `atoi`) neither loop
      makes a call and nothing changes. The printed means are the old sums divided
      by the count: from zeroed sums they are 0 for a negative count and not finite
      for 0. */
  lemma RunWithoutIterations(m: Model, iterations: int, cw: nat -> CompressWorld, dw: nat -> DecompressWorld)
    requires HeapOk(m.heap)
    requires iterations <= 0
    ensures var r := RunSpec(m, iterations, cw, dw);
      && r.status == Success
      && r.model == m
      && r.report.meanRatio.Some? && r.report.meanCompressionTime.Some? && r.report.meanDecompressionTime.Some?
      && (iterations == 0 ==> r.report == Report(Some(NotFinite), Some(NotFinite), Some(NotFinite)))
      && (iterations < 0 && m.totals == ZeroTotals ==>
           r.report == Report(Some(Finite(0.0)), Some(Finite(0.0)), Some(Finite(0.0))))
  {
  }

  // ---------------------------------------------------------------------------
  // The unit itself

  /** The static state of snappy_compression.c and the heap its buffers come from. */
  class SnappyUnit {
    const stats: Accumulators
    const heap: Heap
    ghost var calls: seq<Call>

    ghost predicate Valid()
      reads this, heap
    {
      heap.Valid()
    }

    ghost function Abstract(): Model
      reads this, stats, heap
    {
      Model(stats.Value(), heap.State(), calls)
    }

    constructor ()
      ensures Valid() && fresh(stats) && fresh(heap)
      ensures Abstract() == Model(ZeroTotals, HeapState(map[], 0), [])
    {
      stats := new Accumulators();
      heap := new Heap();
      calls := [];
    }

    /** `compress`: the status snappy_compress returns is not examined. */
    method Compress(w: CompressWorld) returns (status: Status)
      requires Valid()
      modifies this, stats, heap
      ensures Valid()
      ensures CompressStep(old(Abstract()), w) == Outcome(Abstract(), status)
    {
      var bufLen := w.fileSize;
      var buffer := heap.Malloc(bufLen, w.bufferAvailable);
      if buffer.None? {
        calls := calls + [CompressCall(false)];
        return Failure;
      }
      var compressed := heap.Malloc(w.maxCompressedLength, w.compressedAvailable);
      if compressed.None? {
        heap.Free(buffer.value);
        calls := calls + [CompressCall(false)];
        return Failure;
      }
      // The input is read, compressed and written (file contents are not modelled).
      var compressedLen := w.compressedLen;
      stats.AddCompression(TimeSample(w.elapsedNs), RatioPercent(compressedLen, bufLen));
      heap.Free(buffer.value);
      heap.Free(compressed.value);
      calls := calls + [CompressCall(true)];
      status := Success;
    }

    /** `decompress`: the status snappy_uncompress returns is not examined, and on
        success neither buffer is freed. */
    method Decompress(w: DecompressWorld) returns (status: Status)
      requires Valid()
      modifies this, stats, heap
      ensures Valid()
      ensures DecompressStep(old(Abstract()), w) == Outcome(Abstract(), status)
    {
      var compressedLen := w.archSize;
      var uncompressedLen := 0;
      var compressed := heap.Malloc(compressedLen, w.inputAvailable);
      if compressed.None? {
        calls := calls + [DecompressCall(uncompressedLen, false)];
        return Failure;
      }
      uncompressedLen := OutputCapacity(w);
      var uncompressed := heap.Malloc(uncompressedLen, w.outputAvailable);
      if uncompressed.None? {
        heap.Free(compressed.value);
        calls := calls + [DecompressCall(uncompressedLen, false)];
        return Failure;
      }
      stats.AddDecompression(TimeSample(w.elapsedNs));
      calls := calls + [DecompressCall(uncompressedLen, true)];
      status := Success;
    }

    /** The compress loop of `run_snappy`, returning at the first failure; the
        rewinds between calls are not modelled. */
    method CompressLoop(iterations: int, cw: nat -> CompressWorld) returns (status: Status)
      requires Valid()
      modifies this, stats, heap
      ensures Valid()
      ensures CompressPhase(old(Abstract()), cw, 0, iterations) == Outcome(Abstract(), status)
    {
      var i: nat := 0;
      while i < iterations
        invariant Valid()
        invariant CompressPhase(Abstract(), cw, i, iterations) == CompressPhase(old(Abstract()), cw, 0, iterations)
        decreases iterations - i
      {
        var ret := Compress(cw(i));
        if ret == Failure {
          return Failure;
        }
        i := i + 1;
      }
      status := Success;
    }

    /** The decompress loop of `run_snappy`, returning at the first failure. */
    method DecompressLoop(iterations: int, dw: nat -> DecompressWorld) returns (status: Status)
      requires Valid()
      modifies this, stats, heap
      ensures Valid()
      ensures DecompressPhase(old(Abstract()), dw, 0, iterations) == Outcome(Abstract(), status)
    {
      var i: nat := 0;
      while i < iterations
        invariant Valid()
        invariant DecompressPhase(Abstract(), dw, i, iterations) == DecompressPhase(old(Abstract()), dw, 0, iterations)
        decreases iterations - i
      {
        var ret := Decompress(dw(i));
        if ret == Failure {
          return Failure;
        }
        i := i + 1;
      }
      status := Success;
    }

    /** `run_snappy` as built with STATS_MODE. */
    method RunSnappy(iterations: int, cw: nat -> CompressWorld, dw: nat -> DecompressWorld) returns (status: Status, report: Report)
      requires Valid()
      modifies this, stats, heap
      ensures Valid()
      ensures RunSpec(old(Abstract()), iterations, cw, dw) == RunResult(Abstract(), status, report)
    {
      var ret := CompressLoop(iterations, cw);
      if ret == Failure {
        return Failure, Report(None, None, None);
      }
      var meanRatio := Mean(stats.compressionRatio, iterations);
      var meanTime := Mean(Finite(stats.compressionTime), iterations);
      ret := DecompressLoop(iterations, dw);
      if ret == Failure {
        return Failure, Report(Some(meanRatio), Some(meanTime), None);
      }
      var meanDecompression := Mean(Finite(stats.decompressionTime), iterations);
      return Success, Report(Some(meanRatio), Some(meanTime), Some(meanDecompression));
    }
  }
}
