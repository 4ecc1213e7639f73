/** Vocabulary shared by the benchmark driver and the codec units: result codes,
    compression levels, an exact stand-in for the float statistics, the running
    accumulators every codec unit keeps, and the heap its buffers come from. */
module Bench {

  datatype Option<T> = None | Some(value: T)

  /** LOW_COMPRESSION / HIGH_COMPRESSION. */
  datatype Level = Low | High

  /** BZIP2_SUCCESS / BZIP2_FAILURE and SNAPPY_SUCCESS / SNAPPY_FAILURE. */
  datatype Status = Success | Failure

  /** An exact stand-in for a `float` statistic: a finite value is an exact real,
      `NotFinite` is an infinity or a NaN, which absorbs every later addition. */
  datatype Stat = Finite(value: real) | NotFinite

  function Add(a: Stat, b: Stat): Stat
  {
    if a.Finite? && b.Finite? then Finite(a.value + b.value) else NotFinite
  }

  /** One elapsed-time sample, `tv_nsec / 1000000.0f`, in milliseconds. */
  function TimeSample(elapsedNs: nat): (ms: real)
    ensures 0.0 <= ms
    ensures elapsedNs < 1000000000 ==> ms < 1000.0
  {
    elapsedNs as real / 1000000.0
  }

  /** One ratio sample, `(compressed / (float)source) * 100.0f`: a percentage, which
      is not finite when the source is empty (the float division is by zero). */
  function RatioPercent(compressedLen: nat, sourceLen: nat): (r: Stat)
    ensures r.Finite? <==> sourceLen > 0
    ensures r.Finite? ==> r.value * sourceLen as real == 100.0 * compressedLen as real
    ensures r.Finite? ==> (r.value <= 100.0 <==> compressedLen <= sourceLen)
  {
    if sourceLen == 0 then NotFinite
    else
      var v := compressedLen as real / sourceLen as real * 100.0;
      assert v * sourceLen as real == 100.0 * compressedLen as real;
      Finite(v)
  }

  function Sum(s: seq<real>): real
  {
    if s == [] then 0.0 else s[0] + Sum(s[1..])
  }

  function SumStat(s: seq<Stat>): Stat
  {
    if s == [] then Finite(0.0) else Add(s[0], SumStat(s[1..]))
  }

  /** A running float sum stays finite exactly as long as every sample added to it is. */
  lemma {:induction false} SumStatFinite(s: seq<Stat>)
    ensures SumStat(s).Finite? <==> forall i :: 0 <= i < |s| ==> s[i].Finite?
    ensures SumStat(s).Finite? ==> SumStat(s).value == Sum(Values(s))
  {
    if s != [] {
      SumStatFinite(s[1..]);
      assert forall i :: 1 <= i < |s| ==> s[1..][i - 1] == s[i];
    }
  }

  /** The finite values of a sequence of statistics (a non-finite one reads as 0). */
  function Values(s: seq<Stat>): (r: seq<real>)
    ensures |r| == |s|
  {
    if s == [] then [] else [if s[0].Finite? then s[0].value else 0.0] + Values(s[1..])
  }

  /** A printed mean, `total / iterations`: dividing a float by zero is not finite. */
  function Mean(total: Stat, count: int): (r: Stat)
    ensures r.Finite? <==> total.Finite? && count != 0
    ensures r.Finite? ==> r.value * count as real == total.value
  {
    if total.NotFinite? || count == 0 then NotFinite else Finite(total.value / count as real)
  }

  function Repeat<T>(x: T, k: nat): (r: seq<T>)
    ensures |r| == k
    ensures forall i :: 0 <= i < k ==> r[i] == x
  {
    if k == 0 then [] else [x] + Repeat(x, k - 1)
  }

  /** The values of the three accumulators of one codec unit. */
  datatype Totals = Totals(compressionTime: real, compressionRatio: Stat, decompressionTime: real)

  /** Static storage starts at zero. */
  const ZeroTotals := Totals(0.0, Finite(0.0), 0.0)

  function WithCompression(t: Totals, time: real, ratio: Stat): Totals
  {
    Totals(t.compressionTime + time, Add(t.compressionRatio, ratio), t.decompressionTime)
  }

  function WithDecompression(t: Totals, time: real): Totals
  {
    Totals(t.compressionTime, t.compressionRatio, t.decompressionTime + time)
  }

  /** What further compress calls add: their time samples and their ratio samples. */
  function AddCompressions(t: Totals, times: seq<real>, ratios: seq<Stat>): Totals
  {
    Totals(t.compressionTime + Sum(times), Add(t.compressionRatio, SumStat(ratios)), t.decompressionTime)
  }

  /** What further decompress calls add: their time samples. */
  function AddDecompressions(t: Totals, times: seq<real>): Totals
  {
    Totals(t.compressionTime, t.compressionRatio, t.decompressionTime + Sum(times))
  }

  /** Adding one compress sample and then a list of them is adding the longer list. */
  lemma AddCompressionsCons(t: Totals, time: real, ratio: Stat, times: seq<real>, ratios: seq<Stat>)
    ensures AddCompressions(WithCompression(t, time, ratio), times, ratios) == AddCompressions(t, [time] + times, [ratio] + ratios)
  {
    assert ([time] + times)[1..] == times;
    assert ([ratio] + ratios)[1..] == ratios;
  }

  /** Adding one decompress sample and then a list of them is adding the longer list. */
  lemma AddDecompressionsCons(t: Totals, time: real, times: seq<real>)
    ensures AddDecompressions(WithDecompression(t, time), times) == AddDecompressions(t, [time] + times)
  {
    assert ([time] + times)[1..] == times;
  }

  /** The three means a benchmark run prints (mean compression ratio, mean compression
      time, mean decompression time); after a failed phase nothing more is printed. */
  datatype Report = Report(meanRatio: Option<Stat>, meanCompressionTime: Option<Stat>, meanDecompressionTime: Option<Stat>)

  /** The static accumulators `mean_compression_time`, `mean_compression_ratio` and
      `mean_decompression_time` of one codec unit. Despite their names they hold
      running sums; every `+=` adds one sample. */
  class Accumulators {
    var compressionTime: real
    var compressionRatio: Stat
    var decompressionTime: real

    function Value(): Totals
      reads this
    {
      Totals(compressionTime, compressionRatio, decompressionTime)
    }

    constructor ()
      ensures Value() == ZeroTotals
    {
      compressionTime, compressionRatio, decompressionTime := 0.0, Finite(0.0), 0.0;
    }

    method AddCompression(time: real, ratio: Stat)
      modifies this
      ensures Value() == WithCompression(old(Value()), time, ratio)
    {
      compressionTime := compressionTime + time;
      compressionRatio := Add(compressionRatio, ratio);
    }

    method AddDecompression(time: real)
      modifies this
      ensures Value() == WithDecompression(old(Value()), time)
    {
      decompressionTime := decompressionTime + time;
    }
  }

  /** The buffers obtained from `malloc` and not yet given back to `free`, each with
      its size, and the identity the next successful `malloc` hands out. */
  datatype HeapState = HeapState(owned: map<nat, nat>, next: nat)

  ghost predicate HeapOk(h: HeapState)
  {
    forall id :: id in h.owned ==> id < h.next
  }

  function Allocated(h: HeapState, size: nat): HeapState
  {
    HeapState(h.owned[h.next := size], h.next + 1)
  }

  function Released(h: HeapState, id: nat): HeapState
  {
    h.(owned := h.owned - {id})
  }

  /** A buffer freed right after it was allocated leaves nothing behind. */
  lemma AllocateThenRelease(h: HeapState, size: nat)
    requires HeapOk(h)
    ensures Released(Allocated(h, size), h.next).owned == h.owned
  {
    assert h.next !in h.owned;
  }

  class Heap {
    var owned: map<nat, nat>
    var next: nat

    ghost predicate Valid()
      reads this
    {
      HeapOk(State())
    }

    function State(): HeapState
      reads this
    {
      HeapState(owned, next)
    }

    constructor ()
      ensures Valid() && State() == HeapState(map[], 0)
    {
      owned, next := map[], 0;
    }

    /** `malloc(size)`; `available` says whether the C runtime can satisfy it. */
    method Malloc(size: nat, available: bool) returns (p: Option<nat>)
      requires Valid()
      modifies this
      ensures Valid()
      ensures p.Some? <==> available
      ensures p.Some? ==> p.value == old(next) && State() == Allocated(old(State()), size)
      ensures p.None? ==> State() == old(State())
    {
      if available {
        p := Some(next);
        owned, next := owned[next := size], next + 1;
      } else {
        p := None;
      }
    }

    method Free(id: nat)
      requires Valid()
      modifies this
      ensures Valid()
      ensures State() == Released(old(State()), id)
    {
      owned := owned - {id};
    }
  }
}
