/**
 * The acquisition state of custom_data.py (`CustomData`): two per-mode pending queues fed by
 * the poll step (`refresh`), consumed one batch at a time by the processing step
 * (`process_data`), which fills a raw and a block-averaged ring buffer per mode and, while
 * downloading, appends CSV rows.
 *
 * The poller and the processor are threads in the source; here each of their steps is one
 * method call, so a step reads the mode once and runs to completion. Times are whole
 * milliseconds; the wall clock is the `now` argument of `Refresh`.
 */
module Acquisition {
  import opened Common
  import DataApi

  type Value = DataApi.Value

  datatype Mode = Sin | Dds

  /** The processor thread: not yet started, running its loop, or ended. */
  datatype ThreadState = Unstarted | Alive | Finished

  /** `deque(maxlen=10)` for each pending queue. */
  const PendingCapacity: nat := 10

  /** A timestamped entry, in milliseconds. */
  datatype Timed<T> = Timed(time: int, value: T)

  /** One poll's values, sharing the logical time of the poll. */
  datatype Batch = Batch(time: int, data: seq<Value>)

  /**
   * The configuration read by custom_data.py.
   */
  datatype Settings = Settings(
    frame: DataApi.FrameLayout,
    sinCommand: string,        // READ_SIN_DATA_CMD
    ddsCommand: string,        // READ_DDS_DATA_CMD
    clockStepMs: int,          // CUSTOM_PROTOCO_FREQUENCY
    sleepTimeMs: int,          // SLEEP_TIME_MS
    avgCount: nat,             // DATA_PRINT_AVG_COUNT
    displayTimeRange: nat,     // DISPLAY_TIME_RANGE
    dataFrequency: nat)        // DATA_FREQUENCY

  /** `int(DISPLAY_TIME_RANGE * DATA_FREQUENCY)`: the capacity of each raw buffer. */
  function RawCapacity(s: Settings): nat {
    s.displayTimeRange * s.dataFrequency
  }

  /** `int(DISPLAY_TIME_RANGE * DATA_FREQUENCY / DATA_PRINT_AVG_COUNT)`: the capacity of each averaged buffer. */
  function AvgCapacity(s: Settings): nat
    requires s.avgCount >= 1
  {
    RawCapacity(s) / s.avgCount
  }

  /**
   * What `process_data` works with, fixed when the object is built: the chunk size and the
   * `maxlen` of the raw and of the averaged buffers.
   */
  datatype Averaging = Averaging(avgCount: nat, rawCapacity: nat, avgCapacity: nat)

  /**
   * How a FLOAT32 bit pattern reads as a number: the binary32 format of IEEE 754-2008,
   * section 3.4, which is not modelled; the processing step takes it as a parameter.
   */
  type Binary32 = bv32 -> real

  /** Each mode polls with its own command and reads its own type. */
  function CommandFor(s: Settings, m: Mode): string {
    if m == Sin then s.sinCommand else s.ddsCommand
  }

  function KindFor(m: Mode): DataApi.DataType {
    if m == Sin then DataApi.Float32 else DataApi.UInt32
  }

  function AsReal(binary32: Binary32, v: Value): real {
    match v
    case Int(n) => (n as int) as real
    case Float(bits) => binary32(bits)
  }

  function AsReals(binary32: Binary32, data: seq<Value>): seq<real> {
    seq(|data|, i requires 0 <= i < |data| => AsReal(binary32, data[i]))
  }

  // ---------------------------------------------------------------------------------------
  // Bounded deques

  /** What a `deque(maxlen=cap)` keeps after `s` has been appended to it in order: the last `cap` entries. */
  function Bounded<T>(s: seq<T>, cap: nat): (r: seq<T>)
    ensures |r| == Min(|s|, cap)
    ensures r == s[|s| - |r|..]
  {
    if |s| <= cap then s else s[|s| - cap..]
  }

  /** Appending to a full deque and trimming is the same as trimming once at the end. */
  lemma BoundedAppend<T>(a: seq<T>, b: seq<T>, cap: nat)
    ensures Bounded(Bounded(a, cap) + b, cap) == Bounded(a + b, cap)
  {
    if |a| > cap {
      var u := Bounded(a, cap) + b;
      assert u == (a + b)[|a| - cap..];
      assert Bounded(u, cap) == u[|u| - cap..];
      assert u[|u| - cap..] == (a + b)[|a + b| - cap..];
    } else {
      assert Bounded(a, cap) == a;
    }
  }

  /** When the new entries fit, they are the newest entries of the deque, in order. */
  lemma BoundedKeepsNewest<T>(a: seq<T>, b: seq<T>, cap: nat, i: nat)
    requires i < |b| && |b| - i <= cap
    ensures var r := Bounded(a + b, cap);
      |r| >= |b| - i && r[|r| - |b| + i] == b[i]
  {
    var r := Bounded(a + b, cap);
    assert r[|r| - |b| + i] == (a + b)[|a| + i];
  }

  /** `deque.append` on a pending queue of capacity 10 after a poll that returned values. */
  function Enqueued(q: seq<Batch>, t: int, response: Option<seq<Value>>): (r: seq<Batch>)
    ensures |q| <= PendingCapacity ==> |r| <= PendingCapacity
    ensures response.None? || response.value == [] ==> r == q
    ensures response.Some? && response.value != [] ==>
      |r| >= 1 && r[|r| - 1] == Batch(t, response.value) &&
      (|q| < PendingCapacity ==> r == q + [Batch(t, response.value)]) &&
      (|q| == PendingCapacity ==> r == q[1..] + [Batch(t, response.value)])
  {
    if response.Some? && |response.value| > 0 then Bounded(q + [Batch(t, response.value)], PendingCapacity)
    else q
  }

  // ---------------------------------------------------------------------------------------
  // Block averages

  /** `sum(...)` over reals. */
  function Sum(xs: seq<real>): real {
    if xs == [] then 0.0 else xs[0] + Sum(xs[1..])
  }

  function Mean(xs: seq<real>): real
    requires |xs| > 0
  {
    Sum(xs) / (|xs| as real)
  }

  /** The means of consecutive chunks of `size` values; the last chunk may be shorter. */
  function BlockMeans(xs: seq<real>, size: nat): seq<real>
    requires size >= 1
    decreases |xs|
  {
    if xs == [] then []
    else
      var c := Min(size, |xs|);
      [Mean(xs[..c])] + BlockMeans(xs[c..], size)
  }

  /** The number of chunks `range(0, n, size)` visits: each takes `size` values, the last one what is left. */
  function ChunkCount(n: nat, size: nat): nat
    requires size >= 1
    decreases n
  {
    if n == 0 then 0 else 1 + ChunkCount(n - Min(size, n), size)
  }

  lemma MulAtLeast(s: int, d: int)
    requires s >= 1 && d >= 1
    ensures s * d >= s
  {
  }

  lemma DivUnique(x: int, s: int, q: int, r: int)
    requires s >= 1 && 0 <= r < s && x == s * q + r
    ensures x / s == q
  {
    var q', r' := x / s, x % s;
    assert s * (q - q') == r' - r;
    if q > q' {
      MulAtLeast(s, q - q');
    }
    if q < q' {
      MulAtLeast(s, q' - q);
    }
  }

  /** The number of chunks is `ceil(n / size)`. */
  lemma {:induction false} ChunkCountIsCeiling(n: nat, size: nat)
    requires size >= 1
    ensures ChunkCount(n, size) == (n + size - 1) / size
    decreases n
  {
    if n == 0 {
      DivUnique(size - 1, size, 0, size - 1);
    } else if n <= size {
      DivUnique(n + size - 1, size, 1, n - 1);
    } else {
      var m := n - size;
      ChunkCountIsCeiling(m, size);
      var q, r := (m + size - 1) / size, (m + size - 1) % size;
      assert m + size - 1 == size * q + r;
      assert size * (q + 1) == size * q + size;
      DivUnique(n + size - 1, size, q + 1, r);
    }
  }

  /** The first block mean is the mean of the first chunk, and the rest are the block means of what follows it. */
  lemma BlockMeansUnfold(xs: seq<real>, size: nat)
    requires size >= 1 && xs != []
    ensures BlockMeans(xs, size) == [Mean(xs[..Min(size, |xs|)])] + BlockMeans(xs[Min(size, |xs|)..], size)
  {
  }

  /** There are `ceil(n / size)` block means. */
  lemma {:induction false} BlockMeansCount(xs: seq<real>, size: nat)
    requires size >= 1
    ensures |BlockMeans(xs, size)| == ChunkCount(|xs|, size)
    decreases |xs|
  {
    if xs != [] {
      var c := Min(size, |xs|);
      BlockMeansUnfold(xs, size);
      BlockMeansCount(xs[c..], size);
    }
  }

  /** Block mean k is the mean of `xs[k * size .. min(n, (k + 1) * size)]`. */
  lemma {:induction false} BlockMeansAt(xs: seq<real>, size: nat, k: nat, start: nat)
    requires size >= 1 && k < |BlockMeans(xs, size)| && start == k * size
    ensures start < |xs|
    ensures BlockMeans(xs, size)[k] == Mean(xs[start..Min(|xs|, start + size)])
    decreases |xs|
  {
    BlockMeansUnfold(xs, size);
    if k > 0 {
      assert BlockMeans(xs[Min(size, |xs|)..], size) != [];
      assert |xs| > size;
      var rest := xs[size..];
      MulPred(k, size);
      BlockMeansAt(rest, size, k - 1, start - size);
      SliceOfSuffix(xs, size, start - size, Min(|rest|, start));
    }
  }

  lemma SliceOfSuffix<T>(xs: seq<T>, c: nat, i: nat, j: nat)
    requires c <= |xs| && i <= j <= |xs| - c
    ensures xs[c..][i..j] == xs[c + i..c + j]
  {
  }

  lemma MulPred(k: nat, size: nat)
    requires k >= 1
    ensures (k - 1) * size == k * size - size
  {
  }

  /** The block means from offset i on start with the mean of the chunk at i. */
  lemma NextBlockMean(xs: seq<real>, size: nat, i: nat)
    requires size >= 1 && i < |xs|
    ensures BlockMeans(xs[i..], size) ==
      [Mean(xs[i..Min(i + size, |xs|)])] + BlockMeans(xs[Min(i + size, |xs|)..], size)
  {
    BlockMeansUnfold(xs[i..], size);
    assert xs[i..][..Min(size, |xs| - i)] == xs[i..Min(i + size, |xs|)];
    assert xs[i..][Min(size, |xs| - i)..] == xs[Min(i + size, |xs|)..];
  }

  /**
   * The loop of `process_data` that averages one batch: `for i in range(0, len(data), AVG)`,
   * one mean per non-empty chunk `data[i : i + AVG]`.
   */
  method BlockAverages(xs: seq<real>, size: nat) returns (avgs: seq<real>)
    requires size >= 1
    ensures avgs == BlockMeans(xs, size)
  {
    avgs := [];
    var i := 0;
    while i < |xs|
      invariant 0 <= i
      invariant avgs + BlockMeans(xs[Min(i, |xs|)..], size) == BlockMeans(xs, size)
    {
      var chunk := xs[i..Min(i + size, |xs|)];
      if |chunk| > 0 {
        NextBlockMean(xs, size, i);
        var rest := BlockMeans(xs[Min(i + size, |xs|)..], size);
        assert (avgs + [Mean(chunk)]) + rest == avgs + ([Mean(chunk)] + rest);
        avgs := avgs + [Mean(chunk)];
      }
      i := i + size;
    }
    assert xs[Min(i, |xs|)..] == [];
  }

  // ---------------------------------------------------------------------------------------
  // One processing step

  /** `(t + timedelta(milliseconds=i), x) for i, x in enumerate(data)` */
  function StampSamples(t: int, data: seq<Value>): seq<Timed<Value>> {
    seq(|data|, i requires 0 <= i < |data| => Timed(t + i, data[i]))
  }

  /** `(t + timedelta(milliseconds=i * AVG), x) for i, x in enumerate(avgs)` */
  function StampMeans(t: int, means: seq<real>, size: nat): seq<Timed<real>> {
    seq(|means|, i requires 0 <= i < |means| => Timed(t + i * size, means[i]))
  }

  /** The per-mode structures: pending queue, raw and averaged buffers, and the CSV rows written. */
  datatype Channel = Channel(
    pending: seq<Batch>,
    raw: seq<Timed<Value>>,
    averaged: seq<Timed<real>>,
    rows: seq<Value>)          // the rows `[value]` written to this mode's CSV file

  const EmptyChannel := Channel([], [], [], [])

  /**
   * What `process_data` does to one mode's structures: nothing when its queue is empty;
   * otherwise the oldest batch is removed, its samples go to the raw buffer, its block means
   * to the averaged buffer, and, while downloading, its values to the CSV file.
   */
  function Consumed(ch: Channel, a: Averaging, binary32: Binary32, download: bool): (next: Channel)
    requires a.avgCount >= 1
    ensures ch.pending == [] ==> next == ch
    ensures ch.pending != [] ==> next.pending == ch.pending[1..]
    ensures ch.pending != [] ==> next.rows == ch.rows + (if download then ch.pending[0].data else [])
    ensures |ch.raw| <= a.rawCapacity ==> |next.raw| <= a.rawCapacity
    ensures |ch.averaged| <= a.avgCapacity ==> |next.averaged| <= a.avgCapacity
  {
    if ch.pending == [] then ch
    else
      var batch := ch.pending[0];
      var means := BlockMeans(AsReals(binary32, batch.data), a.avgCount);
      ch.(pending := ch.pending[1..],
          raw := Bounded(ch.raw + StampSamples(batch.time, batch.data), a.rawCapacity),
          averaged := Bounded(ch.averaged + StampMeans(batch.time, means, a.avgCount), a.avgCapacity),
          rows := if download then ch.rows + batch.data else ch.rows)
  }

  /**
   * Sample i of the consumed batch (when it is among the newest `RawCapacity` samples) sits
   * at the matching place at the end of the raw buffer, timestamped `t + i` ms.
   */
  lemma ConsumedRawSample(ch: Channel, a: Averaging, binary32: Binary32, download: bool, i: nat)
    requires a.avgCount >= 1 && ch.pending != []
    requires i < |ch.pending[0].data| && |ch.pending[0].data| - i <= a.rawCapacity
    ensures var next := Consumed(ch, a, binary32, download); var b := ch.pending[0];
      |next.raw| >= |b.data| - i &&
      next.raw[|next.raw| - |b.data| + i] == Timed(b.time + i, b.data[i])
  {
    var b := ch.pending[0];
    ConsumedRaw(ch, a, binary32, download);
    StampedSampleAt(ch.raw, b, a.rawCapacity, i);
  }

  /** The raw buffer after a processing step, with the queue non-empty. */
  lemma ConsumedRaw(ch: Channel, a: Averaging, binary32: Binary32, download: bool)
    requires a.avgCount >= 1 && ch.pending != []
    ensures var b := ch.pending[0];
      Consumed(ch, a, binary32, download).raw == Bounded(ch.raw + StampSamples(b.time, b.data), a.rawCapacity)
  {
  }

  /** The averaged buffer after a processing step, with the queue non-empty. */
  lemma ConsumedAveraged(ch: Channel, a: Averaging, binary32: Binary32, download: bool)
    requires a.avgCount >= 1 && ch.pending != []
    ensures var b := ch.pending[0];
      Consumed(ch, a, binary32, download).averaged ==
        Bounded(ch.averaged + StampMeans(b.time, BlockMeans(AsReals(binary32, b.data), a.avgCount), a.avgCount), a.avgCapacity)
  {
  }

  /** Sample i of a batch appended to a raw buffer, when it fits, sits at its place at the end, stamped `t + i`. */
  lemma StampedSampleAt(raw: seq<Timed<Value>>, b: Batch, cap: nat, i: nat)
    requires i < |b.data| && |b.data| - i <= cap
    ensures var r := Bounded(raw + StampSamples(b.time, b.data), cap);
      |r| >= |b.data| - i && r[|r| - |b.data| + i] == Timed(b.time + i, b.data[i])
  {
    var stamped := StampSamples(b.time, b.data);
    BoundedKeepsNewest(raw, stamped, cap, i);
  }

  /**
   * The consumed batch contributes `ceil(n / AVG)` block means; mean k (when it is among the
   * newest `AvgCapacity` entries) is timestamped `t + start` ms, where `start = k * AVG`,
   * and is the mean of samples `start .. min(n, start + AVG)`.
   */
  lemma ConsumedBlockMean(ch: Channel, a: Averaging, binary32: Binary32, download: bool, k: nat, start: nat)
    requires a.avgCount >= 1 && ch.pending != [] && start == k * a.avgCount
    requires k < ChunkCount(|ch.pending[0].data|, a.avgCount)
    requires ChunkCount(|ch.pending[0].data|, a.avgCount) - k <= a.avgCapacity
    ensures var next := Consumed(ch, a, binary32, download); var b := ch.pending[0];
      var n := ChunkCount(|b.data|, a.avgCount);
      var xs := AsReals(binary32, b.data);
      |next.averaged| >= n - k && start < |b.data| &&
      next.averaged[|next.averaged| - n + k] ==
        Timed(b.time + start, Mean(xs[start..Min(|b.data|, start + a.avgCount)]))
  {
    var r := Consumed(ch, a, binary32, download).averaged;
    ConsumedAveraged(ch, a, binary32, download);
    AppendedMeanAt(ch.averaged, ch.pending[0], a.avgCount, a.avgCapacity, binary32, k, start, r);
  }

  /** Stamped block mean k of a batch appended to an averaged buffer `r`, when it fits, sits at its place at the end. */
  lemma AppendedMeanAt(averaged: seq<Timed<real>>, b: Batch, size: nat, cap: nat, binary32: Binary32, k: nat, start: nat,
                       r: seq<Timed<real>>)
    requires size >= 1 && start == k * size
    requires k < ChunkCount(|b.data|, size) && ChunkCount(|b.data|, size) - k <= cap
    requires r == Bounded(averaged + StampMeans(b.time, BlockMeans(AsReals(binary32, b.data), size), size), cap)
    ensures var n := ChunkCount(|b.data|, size);
      |r| >= n - k && start < |b.data| &&
      r[|r| - n + k] == Timed(b.time + start, Mean(AsReals(binary32, b.data)[start..Min(|b.data|, start + size)]))
  {
    var stamped := StampMeans(b.time, BlockMeans(AsReals(binary32, b.data), size), size);
    StampedMeanAt(b, size, binary32, k, start);
    BoundedKeepsNewest(averaged, stamped, cap, k);
  }

  /** Stamped block mean k of a batch is timestamped `t + k * size` and averages the chunk starting at `k * size`. */
  lemma StampedMeanAt(b: Batch, size: nat, binary32: Binary32, k: nat, start: nat)
    requires size >= 1 && k < ChunkCount(|b.data|, size) && start == k * size
    ensures var stamped := StampMeans(b.time, BlockMeans(AsReals(binary32, b.data), size), size);
      |stamped| == ChunkCount(|b.data|, size) && start < |b.data| &&
      stamped[k] == Timed(b.time + start, Mean(AsReals(binary32, b.data)[start..Min(|b.data|, start + size)]))
  {
    var xs := AsReals(binary32, b.data);
    BlockMeansCount(xs, size);
    BlockMeansAt(xs, size, k, start);
  }

  /** The samples a processing step appends to the raw buffer: none when the queue is empty. */
  function ConsumedSamples(ch: Channel): seq<Timed<Value>> {
    if ch.pending == [] then [] else StampSamples(ch.pending[0].time, ch.pending[0].data)
  }

  /** The block means a processing step appends to the averaged buffer. */
  function ConsumedMeans(ch: Channel, a: Averaging, binary32: Binary32): seq<Timed<real>>
    requires a.avgCount >= 1
  {
    if ch.pending == [] then []
    else
      var b := ch.pending[0];
      StampMeans(b.time, BlockMeans(AsReals(binary32, b.data), a.avgCount), a.avgCount)
  }

  /**
   * A channel's queue is within its capacity, and its two buffers hold the newest entries,
   * in order, of everything ever appended to them.
   */
  ghost predicate Tracks(ch: Channel, rawLog: seq<Timed<Value>>, avgLog: seq<Timed<real>>, a: Averaging) {
    && a.avgCount >= 1
    && |ch.pending| <= PendingCapacity
    && ch.raw == Bounded(rawLog, a.rawCapacity)
    && ch.averaged == Bounded(avgLog, a.avgCapacity)
  }

  /** A processing step keeps each buffer equal to the newest part of everything appended to it. */
  lemma ConsumedTracks(ch: Channel, rawLog: seq<Timed<Value>>, avgLog: seq<Timed<real>>, a: Averaging,
                        binary32: Binary32, download: bool)
    requires Tracks(ch, rawLog, avgLog, a)
    ensures Tracks(Consumed(ch, a, binary32, download), rawLog + ConsumedSamples(ch), avgLog + ConsumedMeans(ch, a, binary32), a)
  {
    if ch.pending == [] {
      assert rawLog + [] == rawLog && avgLog + [] == avgLog;
    } else {
      BoundedAppend(rawLog, ConsumedSamples(ch), a.rawCapacity);
      BoundedAppend(avgLog, ConsumedMeans(ch, a, binary32), a.avgCapacity);
    }
  }

  /** A poll only touches the queue, and keeps it within its capacity. */
  lemma EnqueuedTracks(ch: Channel, rawLog: seq<Timed<Value>>, avgLog: seq<Timed<real>>, a: Averaging,
                       t: int, response: Option<seq<Value>>)
    requires Tracks(ch, rawLog, avgLog, a)
    ensures Tracks(ch.(pending := Enqueued(ch.pending, t, response)), rawLog, avgLog, a)
  {
  }

  /** A channel's queue and buffers are within their capacities. */
  predicate WithinCapacity(ch: Channel, a: Averaging) {
    && |ch.pending| <= PendingCapacity
    && |ch.raw| <= a.rawCapacity
    && |ch.averaged| <= a.avgCapacity
  }

  /** What one poll returns: the frame read with the mode's command, decoded as the mode's type. */
  function Poll(s: Settings, m: Mode, device: DataApi.Device): Option<seq<Value>> {
    DataApi.ParseFrame(s.frame, device.accepts(CommandFor(s, m)), device.reply(DataApi.TotalCount(s.frame)), KindFor(m))
  }

  // ---------------------------------------------------------------------------------------
  // The CustomData object

  class CustomData {
    const settings: Settings
    const averaging: Averaging
    var mode: Mode
    var currentTime: Option<int>       // the logical clock, `None` before the first poll
    var sin: Channel
    var dds: Channel
    var downloadOn: bool
    var running: bool
    var stopFlag: bool
    var processor: ThreadState
    var scheduledPoll: Option<int>     // the delay, in ms, of the `refresh` waiting in the scheduler
    var sinFileOpen: bool
    var ddsFileOpen: bool

    // How often each CSV file was closed.
    ghost var sinCloses: nat
    ghost var ddsCloses: nat

    ghost predicate Valid()
      reads this
    {
      && averaging.avgCount >= 1
      && WithinCapacity(sin, averaging)
      && WithinCapacity(dds, averaging)
      && sinCloses == (if sinFileOpen then 0 else 1)
      && ddsCloses == (if ddsFileOpen then 0 else 1)
      && (!stopFlag ==> sinFileOpen && ddsFileOpen)
      && (processor == Alive ==> !stopFlag)
      && (scheduledPoll.Some? ==> running)
    }

    /** `__init__`: empty queues and buffers, both CSV files open, nothing running. */
    constructor (settings: Settings, mode: Mode)
      requires settings.avgCount >= 1
      ensures Valid()
      ensures this.settings == settings
      ensures averaging.avgCount == settings.avgCount
      ensures averaging.rawCapacity == RawCapacity(settings) && averaging.avgCapacity == AvgCapacity(settings)
      ensures this.mode == mode && currentTime == None
      ensures sin == EmptyChannel && dds == EmptyChannel && sinFileOpen && ddsFileOpen
      ensures !downloadOn && !running && !stopFlag && processor == Unstarted && scheduledPoll == None
    {
      this.settings := settings;
      averaging := Averaging(settings.avgCount, RawCapacity(settings), AvgCapacity(settings));
      this.mode := mode;
      currentTime := None;
      sin, dds := EmptyChannel, EmptyChannel;
      sinFileOpen, ddsFileOpen := true, true;
      downloadOn, running, stopFlag := false, false, false;
      processor := Unstarted;
      scheduledPoll := None;
      sinCloses, ddsCloses := 0, 0;
    }

    /** `get_processed_data`: the active mode's averaged buffer, at most `AvgCapacity` entries. */
    method GetProcessedData() returns (r: seq<Timed<real>>)
      requires Valid()
      ensures r == if mode == Sin then sin.averaged else dds.averaged
      ensures |r| <= averaging.avgCapacity
    {
      r := if mode == Sin then sin.averaged else dds.averaged;
    }

    /** `get_original_data`: the active mode's raw buffer, at most `RawCapacity` entries. */
    method GetOriginalData() returns (r: seq<Timed<Value>>)
      requires Valid()
      ensures r == if mode == Sin then sin.raw else dds.raw
      ensures |r| <= averaging.rawCapacity
    {
      r := if mode == Sin then sin.raw else dds.raw;
    }

    /** `process_data` on one mode's structures. */
    method ProcessData(ch: Channel, binary32: Binary32) returns (next: Channel)
      requires averaging.avgCount >= 1
      ensures next == Consumed(ch, averaging, binary32, downloadOn)
    {
      if ch.pending == [] {
        return ch;
      }
      var batch := ch.pending[0];
      var timed := StampSamples(batch.time, batch.data);
      var raw := Bounded(ch.raw + timed, averaging.rawCapacity);
      var avgs := BlockAverages(AsReals(binary32, batch.data), averaging.avgCount);
      var averaged := Bounded(ch.averaged + StampMeans(batch.time, avgs, averaging.avgCount), averaging.avgCapacity);
      var rows := if downloadOn then ch.rows + batch.data else ch.rows;
      next := Channel(ch.pending[1..], raw, averaged, rows);
    }

    /**
     * One iteration of the processor loop `process`: read the mode once, then consume from
     * that mode's queue only. `binary32` is how FLOAT32 samples read as numbers.
     */
    method ProcessStep(binary32: Binary32)
      requires Valid() && processor == Alive
      modifies this`sin, this`dds
      ensures Valid()
      ensures old(mode) == Sin ==> sin == Consumed(old(sin), averaging, binary32, downloadOn) && dds == old(dds)
      ensures old(mode) == Dds ==> dds == Consumed(old(dds), averaging, binary32, downloadOn) && sin == old(sin)
    {
      if mode == Sin {
        sin := ProcessData(sin, binary32);
      } else {
        dds := ProcessData(dds, binary32);
      }
    }

    /** `start`: start the processor thread unless it is alive; a finished thread cannot be restarted. */
    method Start() returns (ok: bool)
      requires Valid()
      modifies this`processor
      ensures Valid()
      ensures ok <==> old(processor) != Finished
      ensures old(processor) == Unstarted ==> processor == (if stopFlag then Finished else Alive)
      ensures old(processor) != Unstarted ==> processor == old(processor)
    {
      if processor == Alive {
        return true;
      }
      if processor == Finished {
        return false;
      }
      processor := if stopFlag then Finished else Alive;
      return true;
    }

    /** `set_download` */
    method SetDownload(value: bool)
      modifies this`downloadOn
      ensures downloadOn == value
    {
      downloadOn := value;
    }

    /**
     * `refresh`: one poll. Advance the logical clock, read one frame with the active mode's
     * command and type, queue a non-empty result on that mode's queue, and reschedule while
     * running.
     */
    method Refresh(now: int, device: DataApi.Device)
      requires Valid()
      modifies this`currentTime, this`sin, this`dds, this`scheduledPoll
      ensures Valid()
      ensures currentTime == Some(if old(currentTime).None? then now else old(currentTime).value + settings.clockStepMs)
      ensures scheduledPoll == if running then Some(settings.sleepTimeMs) else None
      ensures mode == Sin ==>
        sin == old(sin).(pending := Enqueued(old(sin.pending), currentTime.value, Poll(settings, Sin, device))) &&
        dds == old(dds)
      ensures mode == Dds ==>
        dds == old(dds).(pending := Enqueued(old(dds.pending), currentTime.value, Poll(settings, Dds, device))) &&
        sin == old(sin)
    {
      var t := if currentTime.None? then now else currentTime.value + settings.clockStepMs;
      var response := DataApi.ReadCustomData(settings.frame, device, CommandFor(settings, mode), KindFor(mode));
      currentTime := Some(t);
      if mode == Sin {
        sin := sin.(pending := Enqueued(sin.pending, t, response));
      } else {
        dds := dds.(pending := Enqueued(dds.pending, t, response));
      }
      scheduledPoll := if running then Some(settings.sleepTimeMs) else None;
    }

    /**
     * `set_mode`: switch the mode; on the call that turns `running` on, also start the
     * processor and poll once. `ok` is false when starting raised (the processor had ended).
     */
    method SetMode(m: Mode, now: int, device: DataApi.Device) returns (ok: bool)
      requires Valid()
      modifies this`mode, this`running, this`processor, this`currentTime, this`sin, this`dds, this`scheduledPoll
      ensures Valid()
      ensures mode == m && running
      ensures ok <==> old(running) || old(processor) != Finished
      ensures old(running) || !ok ==>
        processor == old(processor) && currentTime == old(currentTime) &&
        scheduledPoll == old(scheduledPoll) && sin == old(sin) && dds == old(dds)
      ensures !old(running) && ok ==>
        processor == (if old(processor) == Unstarted then (if stopFlag then Finished else Alive) else old(processor)) &&
        scheduledPoll == Some(settings.sleepTimeMs) &&
        currentTime == Some(if old(currentTime).None? then now else old(currentTime).value + settings.clockStepMs)
      ensures !old(running) && ok && m == Sin ==>
        sin == old(sin).(pending := Enqueued(old(sin.pending), currentTime.value, Poll(settings, Sin, device))) &&
        dds == old(dds)
      ensures !old(running) && ok && m == Dds ==>
        dds == old(dds).(pending := Enqueued(old(dds.pending), currentTime.value, Poll(settings, Dds, device))) &&
        sin == old(sin)
    {
      mode := m;
      if running {
        return true;
      }
      running := true;
      ok := Start();
      if ok {
        Refresh(now, device);
      }
    }

    /**
     * `stop`: stop polling and processing and close each CSV file that is still open; a
     * second call closes nothing more.
     */
    method Stop()
      requires Valid()
      modifies this`running, this`stopFlag, this`scheduledPoll, this`processor
      modifies this`sinFileOpen, this`ddsFileOpen, this`sinCloses, this`ddsCloses
      ensures Valid()
      ensures !running && stopFlag && scheduledPoll == None
      ensures processor == if old(processor) == Alive then Finished else old(processor)
      ensures !sinFileOpen && !ddsFileOpen
      ensures sinCloses == old(sinCloses) + (if old(sinFileOpen) then 1 else 0)
      ensures ddsCloses == old(ddsCloses) + (if old(ddsFileOpen) then 1 else 0)
      ensures sinCloses == 1 && ddsCloses == 1
    {
      running, stopFlag, scheduledPoll, processor := false, true, None, if processor == Alive then Finished else processor;
      if sinFileOpen {
        sinFileOpen, sinCloses := false, sinCloses + 1;
      }
      if ddsFileOpen {
        ddsFileOpen, ddsCloses := false, ddsCloses + 1;
      }
    }
  }
}
