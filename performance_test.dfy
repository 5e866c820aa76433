/** `JacksonPerformanceTest`: the timing loop around one encoder, its integer
    statistics, the warm-up-then-record driver and the labels of a run. The clock, the encoder
    and GZIP are parameters: the k-th `System.nanoTime()` reading, the answer of
    the k-th `writeValueAsBytes` call, and the compressor's answer for a payload.
    Each `System.gc()` call is recorded in a log next to the clock reads and
    encodings, so that their order can be stated. */
module PerformanceTest {
  import opened JavaLang

  const NanosInASecond: int := 1_000_000_000
  const WarmIterations: Int32 := 100
  const RecordIterations: Int32 := 10_000

  /** Java `byte`. */
  newtype Byte = x: int | -128 <= x < 128

  /** A Java `byte[]`: its length is an `int`. */
  type Bytes = s: seq<Byte> | |s| <= 0x7fff_ffff

  /** `record Result(...)`. */
  datatype Result = Result(iterations: Int32, durationNS: Int64, avgOpDurationNS: Int64,
                           opsPerSecond: Int64, numBytes: Int32, numCompressedBytes: Int32)

  /** What the loop does, in order: the forced collection, the start and stop
      clock reads, and the encoding of iteration i. */
  datatype Event = Gc(i: nat) | StartClock(i: nat) | Encode(i: nat) | StopClock(i: nat)

  /** The k-th reading of `System.nanoTime()` from where the run starts. */
  type Clock = nat -> Int64

  function Reading(clock: Clock, k: nat): Int64
  {
    clock(k)
  }

  /** The answer of the k-th `writeValueAsBytes(pet)` call: a payload, or the
      exception the encoder throws. */
  type Encoder = nat -> Outcome<Bytes>

  /** The answer to call j of a run whose first call is the e-th. */
  function Answer(encoder: Encoder, e: nat, j: nat): Outcome<Bytes>
  {
    encoder(e + j)
  }

  /** `compress(bytes)`: what writing a payload through a `GZIPOutputStream`
      into a `ByteArrayOutputStream` yields, the compressed bytes, or None (the
      source's null) when that throws the `IOException` it catches. */
  type Gzip = Bytes -> Option<Bytes>

  function Compress(gzip: Gzip, bytes: Bytes): Option<Bytes>
  {
    gzip(bytes)
  }

  /** `Objects.nonNull(compressedBytes) ? compressedBytes.length : 0`. */
  function CompressedLength(gzip: Gzip, bytes: Bytes): Int32
  {
    match Compress(gzip, bytes)
    case Some(compressed) => |compressed|
    case None => 0
  }

  /** The clock reads of iteration i: its start timestamp, then its stop timestamp. */
  function StartRead(c: nat, i: nat): nat
  {
    c + 2 * i
  }

  function StopRead(c: nat, i: nat): nat
  {
    c + 2 * i + 1
  }

  /** `System.nanoTime() - startNS` of iteration i, in `long` arithmetic. */
  function Elapsed(clock: Clock, c: nat, i: nat): Int64
  {
    Wrap64(Reading(clock, StopRead(c, i)) - Reading(clock, StartRead(c, i)))
  }

  /** The exact sum of the clock differences of the first n iterations. */
  function ExactTotal(clock: Clock, c: nat, n: nat): int
  {
    if n == 0 then 0
    else ExactTotal(clock, c, n - 1) + (Reading(clock, StopRead(c, n - 1)) - Reading(clock, StartRead(c, n - 1)))
  }

  /** Adding iteration k's wrapped difference to the wrapped total of the
      iterations before it gives the wrapped total of the first k + 1. */
  lemma TotalStep(clock: Clock, c: nat, n: nat)
    requires n > 0
    ensures Wrap64(Wrap64(ExactTotal(clock, c, n - 1)) + Elapsed(clock, c, n - 1)) == Wrap64(ExactTotal(clock, c, n))
  {
    var d := Reading(clock, StopRead(c, n - 1)) - Reading(clock, StartRead(c, n - 1));
    assert ExactTotal(clock, c, n) == ExactTotal(clock, c, n - 1) + d;
    assert Elapsed(clock, c, n - 1) == Wrap64(d);
    Wrap64Add(ExactTotal(clock, c, n - 1), d);
  }

  /** `durationNS` after n iterations: each adds its difference to the total
      in `long` arithmetic. */
  function Duration(clock: Clock, c: nat, n: nat): Int64
  {
    if n == 0 then 0 else Wrap64(Duration(clock, c, n - 1) + Elapsed(clock, c, n - 1))
  }

  /** Wrapping at every step gives the exact sum reduced once. */
  lemma {:induction false} DurationIsWrappedTotal(clock: Clock, c: nat, n: nat)
    ensures Duration(clock, c, n) == Wrap64(ExactTotal(clock, c, n))
  {
    if n > 0 {
      var prev, step := Duration(clock, c, n - 1), Elapsed(clock, c, n - 1);
      assert Duration(clock, c, n) == Wrap64(prev as int + step as int);
      DurationIsWrappedTotal(clock, c, n - 1);
      TotalStep(clock, c, n);
    }
  }

  /** The first of the first n encoder calls that throws, if any. */
  function FirstFailure(encoder: Encoder, e: nat, n: nat): (r: Option<nat>)
    ensures r.Some? ==> r.value < n && Answer(encoder, e, r.value).Throw?
  {
    if n == 0 then None
    else
      match FirstFailure(encoder, e, n - 1)
      case Some(k) => Some(k)
      case None => if Answer(encoder, e, n - 1).Throw? then Some(n - 1) else None
  }

  /** `bytes` after n iterations: the empty array before the first, then the
      payload of the latest encoding. */
  function Payload(encoder: Encoder, e: nat, n: nat): Bytes
  {
    if n == 0 then []
    else
      match Answer(encoder, e, n - 1)
      case Return(bytes) => bytes
      case Throw(_) => []
  }

  /** The number of iterations the loop `for (i = 0; i < iterations; i++)` runs. */
  function LoopCount(iterations: Int32): nat
  {
    if iterations < 0 then 0 else iterations as nat
  }

  /** `durationNS / (long) iterations`, then `NANOS_IN_A_SECOND / avgOpDurationNS`,
      both in `long` arithmetic; each division throws on a zero divisor. */
  function Statistics(durationNS: Int64, iterations: Int32): Outcome<(Int64, Int64)>
  {
    if iterations == 0 then Throw(ArithmeticException)
    else
      var avg := Wrap64(Quot(durationNS, iterations));
      if avg == 0 then Throw(ArithmeticException)
      else Return((avg, Wrap64(Quot(NanosInASecond, avg))))
  }

  /** The exception of the first failing encoding of a run, if any. */
  function Failure(encoder: Encoder, e: nat, iterations: Int32): Option<Exception>
  {
    match FirstFailure(encoder, e, LoopCount(iterations))
    case Some(k) => Some(Answer(encoder, e, k).exception)
    case None => None
  }

  /** What `test(name, mapper, iterations, record, pet)` returns when its c-th
      clock read and e-th encoder call are the first it makes. */
  function Measure(clock: Clock, encoder: Encoder, gzip: Gzip, c: nat, e: nat, iterations: Int32): Outcome<Result>
  {
    match Failure(encoder, e, iterations)
    case Some(x) => Throw(x)
    case None =>
      var n := LoopCount(iterations);
      Summary(gzip, iterations, Duration(clock, c, n), Payload(encoder, e, n))
  }

  /** The statistics of a loop that ran to the end and the record of the run. */
  function Summary(gzip: Gzip, iterations: Int32, durationNS: Int64, bytes: Bytes): Outcome<Result>
  {
    match Statistics(durationNS, iterations)
    case Throw(x) => Throw(x)
    case Return(stats) =>
      Return(Result(iterations, durationNS, stats.0, stats.1, |bytes|, CompressedLength(gzip, bytes)))
  }

  /** The checkpoint of iteration i: a forced collection when i is a multiple of 100. */
  function Checkpoint(i: nat): seq<Event>
  {
    if i % 100 == 0 then [Gc(i)] else []
  }

  /** The events of iteration i, in program order. */
  function IterationEvents(i: nat): seq<Event>
  {
    Checkpoint(i) + [StartClock(i), Encode(i), StopClock(i)]
  }

  /** The events of the first n iterations. */
  function Schedule(n: nat): seq<Event>
  {
    if n == 0 then [] else Schedule(n - 1) + IterationEvents(n - 1)
  }

  /** The log of a run: every iteration up to the first failing encoding, which
      ends the run right after it. */
  function Trace(encoder: Encoder, e: nat, iterations: Int32): seq<Event>
  {
    var n := LoopCount(iterations);
    match FirstFailure(encoder, e, n)
    case Some(k) => Schedule(k) + Checkpoint(k) + [StartClock(k), Encode(k)]
    case None => Schedule(n)
  }

  /** The number of forced collections in a log. */
  function GcCount(log: seq<Event>): nat
  {
    if log == [] then 0 else GcCount(log[..|log| - 1]) + (if log[|log| - 1].Gc? then 1 else 0)
  }

  /** Where the events of iteration i begin in the log: three events per
      earlier iteration and one collection per earlier multiple of 100. */
  function Offset(i: nat): nat
  {
    3 * i + (i + 99) / 100
  }

  /** One iteration i of the timing loop, given `durationNS` and the log so
      far: a forced collection when i is a multiple of 100, the start clock
      read, the encoding and, when it returns, the stop clock read and the
      addition of the difference to `durationNS`. The i-th clock reads of the
      run are the c-th and its encodings the e-th onwards. */
  method TimeIteration(clock: Clock, encoder: Encoder, c: nat, e: nat, i: Int32, durationNS: Int64, log: seq<Event>)
    returns (answer: Outcome<Bytes>, total: Int64, events: seq<Event>)
    requires 0 <= i && durationNS == Duration(clock, c, i as nat)
    ensures answer == Answer(encoder, e, i as nat)
    ensures answer.Return? ==> total == Duration(clock, c, i as nat + 1)
    ensures answer.Return? ==> events == log + IterationEvents(i as nat)
    ensures answer.Throw? ==> events == log + Checkpoint(i as nat) + [StartClock(i as nat), Encode(i as nat)]
  {
    var k := i as nat;
    events := log;
    total := durationNS;
    // i is never negative, so Java's % and Dafny's agree.
    if i % 100 == 0 {
      events := events + [Gc(k)];
    }
    var startNS := Reading(clock, StartRead(c, k));
    events := events + [StartClock(k)];
    answer := Answer(encoder, e, k);
    events := events + [Encode(k)];
    if answer.Throw? {
      return;
    }
    var stopNS := Reading(clock, StopRead(c, k));
    events := events + [StopClock(k)];
    var elapsed := Wrap64(stopNS as int - startNS as int);
    assert elapsed == Elapsed(clock, c, k);
    total := Wrap64(durationNS as int + elapsed);
  }

  /** The timing loop of `test(name, mapper, iterations, record, pet)`: an
      encoding that throws ends it. */
  method TimeEncodings(clock: Clock, encoder: Encoder, c: nat, e: nat, iterations: Int32)
    returns (failure: Option<Exception>, durationNS: Int64, bytes: Bytes, log: seq<Event>)
    ensures failure == Failure(encoder, e, iterations)
    ensures failure.None? ==> durationNS == Duration(clock, c, LoopCount(iterations))
    ensures failure.None? ==> bytes == Payload(encoder, e, LoopCount(iterations))
    ensures log == Trace(encoder, e, iterations)
  {
    bytes := [];
    durationNS := 0;
    log := [];
    var i: Int32 := 0;
    while i < iterations
      invariant 0 <= i as int <= LoopCount(iterations)
      invariant FirstFailure(encoder, e, i as nat) == None
      invariant durationNS == Duration(clock, c, i as nat)
      invariant bytes == Payload(encoder, e, i as nat)
      invariant log == Schedule(i as nat)
    {
      var answer;
      answer, durationNS, log := TimeIteration(clock, encoder, c, e, i, durationNS, log);
      if answer.Throw? {
        FirstFailureStays(encoder, e, i as nat + 1, LoopCount(iterations));
        return Some(answer.exception), durationNS, bytes, log;
      }
      bytes := answer.value;
      i := i + 1;
    }
    assert i as nat == LoopCount(iterations);
    failure := None;
  }

  /** `test(name, mapper, iterations, record, pet)`: the timing loop and the
      statistics after it. Its first clock read is the c-th and its first
      encoding the e-th; it returns the result and the log of what it did. */
  method Test(clock: Clock, encoder: Encoder, gzip: Gzip, c: nat, e: nat, iterations: Int32)
    returns (r: Outcome<Result>, log: seq<Event>)
    ensures r == Measure(clock, encoder, gzip, c, e, iterations)
    ensures log == Trace(encoder, e, iterations)
  {
    var failure, durationNS, bytes;
    failure, durationNS, bytes, log := TimeEncodings(clock, encoder, c, e, iterations);
    if failure.Some? {
      return Throw(failure.value), log;
    }
    var stats := Statistics(durationNS, iterations);
    if stats.Throw? {
      return Throw(stats.exception), log;
    }
    var (avgOpDurationNS, opsPerSecond) := stats.value;
    r := Return(Result(iterations, durationNS, avgOpDurationNS, opsPerSecond, |bytes|, CompressedLength(gzip, bytes)));
  }

  /** `test(name, mapper, pet)`: a 100-iteration warm-up whose result is
      discarded, then the 10,000-iteration run whose result is returned. A
      warm-up that throws ends the test. */
  method TestWarmThenRecord(clock: Clock, encoder: Encoder, gzip: Gzip, c: nat, e: nat)
    returns (r: Outcome<Result>, log: seq<Event>)
    ensures var warm := Measure(clock, encoder, gzip, c, e, WarmIterations);
      r == (if warm.Throw? then warm
            else Measure(clock, encoder, gzip, c + 2 * 100, e + 100, RecordIterations))
    ensures var warm := Measure(clock, encoder, gzip, c, e, WarmIterations);
      log == Trace(encoder, e, WarmIterations) +
             (if warm.Throw? then [] else Trace(encoder, e + 100, RecordIterations))
  {
    var warm, warmLog := Test(clock, encoder, gzip, c, e, WarmIterations);
    if warm.Throw? {
      return warm, warmLog;
    }
    var recordLog;
    r, recordLog := Test(clock, encoder, gzip, c + 2 * 100, e + 100, RecordIterations);
    log := warmLog + recordLog;
  }

  /** A run that returns echoes its loop count, accumulates the clock
      differences of exactly that many iterations in `long` arithmetic, and
      reports the payload of the last iteration and its compressed length (0
      when compression fails). */
  lemma MeasureResult(clock: Clock, encoder: Encoder, gzip: Gzip, c: nat, e: nat, iterations: Int32)
    requires Measure(clock, encoder, gzip, c, e, iterations).Return?
    ensures var result := Measure(clock, encoder, gzip, c, e, iterations).value;
      iterations > 0 &&
      FirstFailure(encoder, e, iterations as nat) == None &&
      result.iterations == iterations &&
      result.durationNS == Wrap64(ExactTotal(clock, c, iterations as nat)) &&
      (0 <= ExactTotal(clock, c, iterations as nat) <= MaxLong ==>
         result.durationNS == ExactTotal(clock, c, iterations as nat)) &&
      Answer(encoder, e, iterations as nat - 1).Return? &&
      result.numBytes == |Answer(encoder, e, iterations as nat - 1).value| &&
      result.numCompressedBytes ==
        (match gzip(Answer(encoder, e, iterations as nat - 1).value)
         case Some(compressed) => |compressed|
         case None => 0)
  {
    FirstFailureNone(encoder, e, iterations as nat, iterations as nat - 1);
    DurationIsWrappedTotal(clock, c, iterations as nat);
  }

  /** Once some call has failed, later calls do not change the first failure. */
  lemma {:induction false} FirstFailureStays(encoder: Encoder, e: nat, m: nat, n: nat)
    requires m <= n && FirstFailure(encoder, e, m).Some?
    ensures FirstFailure(encoder, e, n) == FirstFailure(encoder, e, m)
    decreases n - m
  {
    if m < n {
      FirstFailureStays(encoder, e, m, n - 1);
    }
  }

  /** The first failure is the earliest throwing call, and none before it throws. */
  lemma {:induction false} FirstFailureSpec(encoder: Encoder, e: nat, n: nat, k: nat)
    ensures FirstFailure(encoder, e, n) == Some(k) <==>
      k < n && Answer(encoder, e, k).Throw? && forall j :: 0 <= j < k ==> Answer(encoder, e, j).Return?
  {
    if n > 0 {
      FirstFailureSpec(encoder, e, n - 1, k);
      if FirstFailure(encoder, e, n - 1).None? && k < n - 1 {
        FirstFailureNone(encoder, e, n - 1, k);
      }
      if FirstFailure(encoder, e, n - 1).None? && k == n - 1 {
        forall j | 0 <= j < k ensures Answer(encoder, e, j).Return? {
          FirstFailureNone(encoder, e, n - 1, j);
        }
      }
      if FirstFailure(encoder, e, n - 1).Some? && k == n - 1 {
        var f := FirstFailure(encoder, e, n - 1).value;
        FirstFailureSpec(encoder, e, n - 1, f);
      }
    }
  }

  /** With no failure among the first n calls, each of them returns. */
  lemma {:induction false} FirstFailureNone(encoder: Encoder, e: nat, n: nat, j: nat)
    requires FirstFailure(encoder, e, n) == None && j < n
    ensures Answer(encoder, e, j).Return?
  {
    if j < n - 1 {
      FirstFailureNone(encoder, e, n - 1, j);
    }
  }

  /** A run of no iterations, or of a negative count, always ends in an
      `ArithmeticException`: either `iterations` is 0, or the average 0 / n is 0. */
  lemma MeasureWithoutIterations(clock: Clock, encoder: Encoder, gzip: Gzip, c: nat, e: nat, iterations: Int32)
    requires iterations <= 0
    ensures Measure(clock, encoder, gzip, c, e, iterations) == Throw(ArithmeticException)
    ensures Trace(encoder, e, iterations) == []
  {
    if iterations < 0 {
      assert Quot(0, iterations) == 0;
    }
  }

  /** `durationNS / (long) iterations` truncates toward zero, agrees with
      Euclidean division on non-negative operands, and wraps only for
      Long.MIN_VALUE / -1. */
  lemma AverageSpec(durationNS: Int64, iterations: Int32)
    requires iterations != 0
    ensures Wrap64(Quot(durationNS, iterations)) ==
      if durationNS == MinLong && iterations == -1 then MinLong else Quot(durationNS, iterations)
    ensures durationNS >= 0 && iterations > 0 ==> Quot(durationNS, iterations) == durationNS / iterations
  {
    var q := Quot(durationNS, iterations);
    QuotBound(Mag(durationNS), Mag(iterations));
    if q == 0x8000_0000_0000_0000 {
      QuotOverflow(durationNS, iterations);
      Wrap64Unique(q, MinLong, 1);
    }
  }

  /** The average is 0, so that the throughput division throws, exactly when
      |durationNS| < |iterations|. */
  lemma AverageIsZero(durationNS: Int64, iterations: Int32)
    requires iterations != 0
    ensures Wrap64(Quot(durationNS, iterations)) == 0 <==> Mag(durationNS) < Mag(iterations)
  {
    AverageSpec(durationNS, iterations);
    var a, b := Mag(durationNS), Mag(iterations);
    DivisionBracket(a, b);
    if a / b >= 1 {
      MulAtLeast(a / b, b);
    }
  }

  /** `NANOS_IN_A_SECOND / avgOpDurationNS` never wraps, and it is the largest
      count of average operations that fits in one second. */
  lemma ThroughputSpec(avg: Int64)
    requires avg != 0
    ensures Wrap64(Quot(NanosInASecond, avg)) == Quot(NanosInASecond, avg)
    ensures var ops := Quot(NanosInASecond, avg);
      Mag(ops) * Mag(avg) <= NanosInASecond < (Mag(ops) + 1) * Mag(avg)
    ensures var ops := Quot(NanosInASecond, avg);
      avg > 0 ==> ops >= 0 && ops * avg <= NanosInASecond < (ops + 1) * avg
  {
    QuotBound(NanosInASecond, Mag(avg));
    DivisionBracket(NanosInASecond, Mag(avg));
  }

  /** The statistics after the loop: a zero count or a zero average throws
      `ArithmeticException`; otherwise the pair is the truncated average and the
      throughput computed from it. */
  lemma StatisticsSpec(durationNS: Int64, iterations: Int32)
    ensures Statistics(durationNS, iterations).Throw? <==>
      iterations == 0 || Mag(durationNS) < Mag(iterations)
    ensures Statistics(durationNS, iterations).Throw? ==>
      Statistics(durationNS, iterations) == Throw(ArithmeticException)
    ensures Statistics(durationNS, iterations).Return? ==>
      var (avg, ops) := Statistics(durationNS, iterations).value;
      avg == Wrap64(Quot(durationNS, iterations)) && ops == Quot(NanosInASecond, avg) &&
      Mag(ops) * Mag(avg) <= NanosInASecond < (Mag(ops) + 1) * Mag(avg)
  {
    if iterations != 0 {
      AverageSpec(durationNS, iterations);
      AverageIsZero(durationNS, iterations);
      var avg := Wrap64(Quot(durationNS, iterations));
      if avg != 0 {
        ThroughputSpec(avg);
      }
    }
  }

  /** A positive multiplier does not make a natural number smaller. */
  lemma {:induction false} MulAtLeast(b: nat, k: nat)
    requires b >= 1
    ensures b * k >= k
  {
    if b > 1 {
      MulAtLeast(b - 1, k);
      assert b * k == (b - 1) * k + k;
    }
  }

  /** A quotient of a natural number by a positive one is at most the dividend. */
  lemma QuotBound(a: nat, b: nat)
    requires b > 0
    ensures 0 <= a / b <= a
  {
    var k := a / b;
    NatDivision(a, b);
    assert a == b * k + a % b;
    MulAtLeast(b, k);
  }

  /** Only Long.MIN_VALUE / -1 has a truncated quotient of 2^63. */
  lemma QuotOverflow(a: Int64, b: Int32)
    requires b != 0 && Quot(a, b) == 0x8000_0000_0000_0000
    ensures a == MinLong && b == -1
  {
    var ma, mb := Mag(a), Mag(b);
    assert ma == mb * 0x8000_0000_0000_0000 + ma % mb;
  }

  /** The quotient q = a / b of natural numbers brackets a: q * b <= a < (q + 1) * b. */
  lemma DivisionBracket(a: nat, b: nat)
    requires b > 0
    ensures (a / b) * b <= a < (a / b + 1) * b
  {
    var q, r := a / b, a % b;
    assert a == b * q + r && 0 <= r < b;
    assert (q + 1) * b == q * b + b;
  }

  /** The log of a run is the full schedule of its iterations exactly when no
      encoding fails: a failing run's log ends with the failed encoding, a
      complete one with a stop clock read. */
  lemma TraceIsFullSchedule(encoder: Encoder, e: nat, iterations: Int32)
    ensures Trace(encoder, e, iterations) == Schedule(LoopCount(iterations)) <==>
      Failure(encoder, e, iterations) == None
  {
    var n := LoopCount(iterations);
    match FirstFailure(encoder, e, n)
    case Some(k) =>
      var t := Schedule(k) + Checkpoint(k) + [StartClock(k), Encode(k)];
      assert t[|t| - 1] == Encode(k);
      var s := Schedule(n);
      assert s == Schedule(n - 1) + IterationEvents(n - 1);
      assert s[|s| - 1] == StopClock(n - 1);
    case None =>
  }

  /** The schedule has three events per iteration and one collection per
      multiple of 100 below n. */
  lemma {:induction false} ScheduleLength(n: nat)
    ensures |Schedule(n)| == Offset(n)
  {
    if n > 0 {
      ScheduleLength(n - 1);
      assert (n - 1) % 100 == 0 ==> (n + 99) / 100 == (n + 98) / 100 + 1;
      assert (n - 1) % 100 != 0 ==> (n + 99) / 100 == (n + 98) / 100;
    }
  }

  /** Running more iterations extends the schedule: the first events do not
      depend on how many iterations follow. */
  lemma {:induction false} SchedulePrefix(m: nat, n: nat)
    requires m <= n
    ensures Schedule(m) <= Schedule(n)
    decreases n
  {
    if m < n {
      SchedulePrefix(m, n - 1);
      assert Schedule(n - 1) <= Schedule(n);
    }
  }

  /** Iteration i's events occupy positions Offset(i) to Offset(i + 1) of the
      schedule, in program order. */
  lemma ScheduleSlice(n: nat, i: nat)
    requires i < n
    ensures Offset(i + 1) <= |Schedule(n)|
    ensures Schedule(n)[Offset(i)..Offset(i + 1)] == IterationEvents(i)
  {
    ScheduleLength(i);
    ScheduleLength(i + 1);
    SchedulePrefix(i + 1, n);
    var upTo := Schedule(i + 1);
    assert upTo == Schedule(i) + IterationEvents(i);
    assert upTo[Offset(i)..] == IterationEvents(i);
    assert Schedule(n)[Offset(i)..Offset(i + 1)] == upTo[Offset(i)..];
  }

  /** A collection is forced exactly on the iterations i with i % 100 == 0,
      including i = 0, and right before that iteration's start timestamp. */
  lemma GcPrecedesStart(n: nat, i: nat)
    requires i < n && i % 100 == 0
    ensures Offset(i) + 1 < |Schedule(n)| &&
      Schedule(n)[Offset(i)] == Gc(i) && Schedule(n)[Offset(i) + 1] == StartClock(i)
  {
    ScheduleSlice(n, i);
    assert Schedule(n)[Offset(i)..Offset(i + 1)][0] == Gc(i);
    assert Schedule(n)[Offset(i)..Offset(i + 1)][1] == StartClock(i);
  }

  /** Gc(i) occurs in the schedule exactly for the iterations run whose index
      is a multiple of 100. */
  lemma {:induction false} GcInSchedule(n: nat, i: nat)
    ensures Gc(i) in Schedule(n) <==> i < n && i % 100 == 0
  {
    if n > 0 {
      GcInSchedule(n - 1, i);
      assert Gc(i) in IterationEvents(n - 1) <==> i == n - 1 && i % 100 == 0;
    }
  }

  lemma {:induction false} GcCountAppend(a: seq<Event>, b: seq<Event>)
    ensures GcCount(a + b) == GcCount(a) + GcCount(b)
    decreases |b|
  {
    if b != [] {
      var init := b[..|b| - 1];
      assert (a + b)[..|a + b| - 1] == a + init;
      GcCountAppend(a, init);
    } else {
      assert a + b == a;
    }
  }

  lemma GcCountSingleton(x: Event)
    ensures GcCount([x]) == if x.Gc? then 1 else 0
  {
    assert [x][..0] == [];
  }

  /** An iteration forces one collection when its index is a multiple of 100
      and none otherwise. */
  lemma IterationGcCount(i: nat)
    ensures GcCount(IterationEvents(i)) == if i % 100 == 0 then 1 else 0
  {
    GcCountAppend(Checkpoint(i), [StartClock(i), Encode(i), StopClock(i)]);
    assert [StartClock(i), Encode(i), StopClock(i)] == [StartClock(i), Encode(i)] + [StopClock(i)];
    GcCountAppend([StartClock(i), Encode(i)], [StopClock(i)]);
    assert [StartClock(i), Encode(i)] == [StartClock(i)] + [Encode(i)];
    GcCountAppend([StartClock(i)], [Encode(i)]);
    GcCountSingleton(StartClock(i));
    GcCountSingleton(Encode(i));
    GcCountSingleton(StopClock(i));
    GcCountSingleton(Gc(i));
  }

  /** The number of multiples of 100 below n grows by one exactly at n - 1 being one. */
  lemma CeilingStep(n: nat)
    requires n > 0
    ensures (n + 99) / 100 == (n + 98) / 100 + (if (n - 1) % 100 == 0 then 1 else 0)
  {
  }

  /** A run of n iterations forces ceil(n / 100) collections. */
  lemma {:induction false} GcCountOfSchedule(n: nat)
    ensures GcCount(Schedule(n)) == (n + 99) / 100
  {
    if n > 0 {
      GcCountOfSchedule(n - 1);
      GcCountAppend(Schedule(n - 1), IterationEvents(n - 1));
      IterationGcCount(n - 1);
      CeilingStep(n);
    }
  }

  /** The run name of a test: `(userAfterBurner ? "AB" : "no-AB") + "/" +
      (useBigPet ? "B" : "S")`. */
  function Label(afterBurner: bool, bigPet: bool): string
  {
    (if afterBurner then "AB" else "no-AB") + "/" + (if bigPet then "B" else "S")
  }

  /** The four runs have four different names, each of the two documented forms. */
  lemma LabelInjective(a1: bool, b1: bool, a2: bool, b2: bool)
    ensures Label(a1, b1) == Label(a2, b2) <==> a1 == a2 && b1 == b2
    ensures Label(a1, b1) in {"AB/B", "AB/S", "no-AB/B", "no-AB/S"}
  {
    assert Label(true, true) == "AB/B" && Label(true, false) == "AB/S";
    assert Label(false, true) == "no-AB/B" && Label(false, false) == "no-AB/S";
  }
}
