/**
 * The repository's test scenarios, replayed against the model: the sink
 * built with passthrough Information, trigger Error, minimum Debug and a
 * 10-second expiry, fed records that either all carry the same correlation
 * value or none at all. Sequential emits stand in for the parallel ones.
 */
module Scenarios {
  import opened Wrappers
  import opened Events
  import opened LogEntryBuffer
  import opened MementoGroupSink
  import SinkConfiguration

  const CorrelationId: string := "CorrelationId"
  const CorrelationValue: string := "correlation-id value"
  const TestThresholds: Thresholds := Thresholds(Information, Error, Debug)
  /** TimeSpan.FromSeconds(10), in ticks. */
  const TestSink: Sink := Sink(CorrelationId, 10 * 10_000_000, TestThresholds)

  function Correlated(level: Level): LogRecord
  {
    LogRecord(0, level, map[CorrelationId := CorrelationValue])
  }

  function Uncorrelated(level: Level): LogRecord
  {
    LogRecord(0, level, map[])
  }

  /** The cast `(LogEventLevel)(i % period)` used to generate the high-volume streams. */
  function CycleLevel(i: nat, period: nat): Level
    requires 1 <= period <= 6
  {
    (i % period) as Level
  }

  /** `count` correlated records whose levels cycle through the first `period` levels. */
  function Cycle(count: nat, period: nat): (s: seq<LogRecord>)
    requires 1 <= period <= 6
    ensures |s| == count
  {
    seq(count, i requires 0 <= i < count => Correlated(CycleLevel(i, period)))
  }

  // ---- helpers for computing filters of concrete sequences ----------------

  lemma Snoc(sel: Selector, s: seq<LogRecord>, r: LogRecord, t: seq<LogRecord>)
    requires t == s + [r]
    ensures Filter(sel, t) == Filter(sel, s) + if Selects(sel, r) then [r] else []
  {
    assert t[..|s|] == s;
  }

  // ---- routing through the sink -------------------------------------------

  /** With only correlated records and no buffer yet, the sink's output is that of one fresh buffer. */
  lemma SingleCorrelationOutput(rs: seq<LogRecord>)
    requires forall x :: x in rs ==> CorrelationKey(CorrelationId, x) == Some(CorrelationValue)
    ensures EmitAll(TestSink, map[], 0, rs).forwarded == Run(TestThresholds, Create(CorrelationValue, 0), rs).forwarded
  {
    var out := EmitAll(TestSink, map[], 0, rs).forwarded;
    var sel := Keyed(CorrelationId, CorrelationValue);
    EmitAllOneCorrelation(TestSink, map[], 0, rs, Some(CorrelationValue));
    FilterKeepsAll(sel, out);
    FilterKeepsAll(sel, rs);
    EmitAllPerKey(TestSink, map[], 0, rs, CorrelationValue);
  }

  /** With only uncorrelated records, the sink forwards exactly those at or above Information. */
  lemma NoCorrelationOutput(rs: seq<LogRecord>)
    requires forall x :: x in rs ==> CorrelationKey(CorrelationId, x).None?
    ensures EmitAll(TestSink, map[], 0, rs).forwarded == Filter(AtLeast(Information), rs)
  {
    var out := EmitAll(TestSink, map[], 0, rs).forwarded;
    var sel := Unkeyed(CorrelationId);
    EmitAllOneCorrelation(TestSink, map[], 0, rs, None);
    FilterKeepsAll(sel, out);
    FilterKeepsAll(sel, rs);
    EmitAllUnkeyed(TestSink, map[], 0, rs);
  }

  /** A single record is forwarded iff it is at or above Information, with or without correlation. */
  lemma SingleRecord(level: Level)
    ensures Emit(TestSink, map[], 0, Uncorrelated(level)).forwarded
            == if level >= Information then [Uncorrelated(level)] else []
    ensures Emit(TestSink, map[], 0, Correlated(level)).forwarded
            == if level >= Information then [Correlated(level)] else []
  {
    FilterSingleton(AtLeast(Information), Uncorrelated(level));
    FilterSingleton(AtLeast(Information), Correlated(level));
    FilterSingleton(AdmittedBy(TestThresholds), Correlated(level));
    WriteRoutes(TestThresholds, Create(CorrelationValue, 0), Correlated(level));
  }

  // ---- the fixed sequences ------------------------------------------------

  function CorrelatedSix(): seq<LogRecord>
  {
    [Correlated(Verbose), Correlated(Debug), Correlated(Information),
     Correlated(Warning), Correlated(Error), Correlated(Fatal)]
  }

  function CorrelatedEight(): seq<LogRecord>
  {
    [Correlated(Verbose), Correlated(Debug), Correlated(Information), Correlated(Verbose),
     Correlated(Debug), Correlated(Warning), Correlated(Verbose), Correlated(Debug)]
  }

  function UncorrelatedSix(): seq<LogRecord>
  {
    [Uncorrelated(Verbose), Uncorrelated(Debug), Uncorrelated(Information),
     Uncorrelated(Warning), Uncorrelated(Error), Uncorrelated(Fatal)]
  }

  /**
   * Verbose..Fatal for one correlation: Information and Warning go out live,
   * Error releases the queued Debug before itself, Fatal follows; Verbose is
   * dropped. Five records, the queued one ahead of the trigger.
   */
  lemma CorrelatedSixForwardsFive()
    ensures EmitAll(TestSink, map[], 0, CorrelatedSix()).forwarded
            == [Correlated(Information), Correlated(Warning), Correlated(Debug), Correlated(Error), Correlated(Fatal)]
    ensures Run(TestThresholds, Create(CorrelationValue, 0), CorrelatedSix()).buffer.state == Latched
  {
    assert forall x :: x in CorrelatedSix() ==> CorrelationKey(CorrelationId, x) == Some(CorrelationValue);
    SingleCorrelationOutput(CorrelatedSix());
    CorrelatedSixRun();
  }

  /** The lone buffer's view of the six records. */
  lemma CorrelatedSixRun()
    ensures var s := Run(TestThresholds, Create(CorrelationValue, 0), CorrelatedSix());
            && s.forwarded == [Correlated(Information), Correlated(Warning), Correlated(Debug), Correlated(Error), Correlated(Fatal)]
            && s.buffer.state == Latched
  {
    var th := TestThresholds;
    var pre := [Correlated(Verbose), Correlated(Debug), Correlated(Information), Correlated(Warning)];
    var t := Correlated(Error);
    var post := [Correlated(Fatal)];
    assert CorrelatedSix() == pre + [t] + post;
    BeforeTheTrigger();
    FirstTriggerFlushes(th, Create(CorrelationValue, 0), pre, t, post);
    FilterKeepsAll(AdmittedBy(th), [t] + post);
  }

  /** How the four records before the Error split into live, queued and dropped ones. */
  lemma BeforeTheTrigger()
    ensures var pre := [Correlated(Verbose), Correlated(Debug), Correlated(Information), Correlated(Warning)];
            && Filter(AtLeast(Error), pre) == []
            && Filter(AtLeast(Information), pre) == [Correlated(Information), Correlated(Warning)]
            && Filter(DeferrableBy(TestThresholds), pre) == [Correlated(Debug)]
  {
    var th := TestThresholds;
    var pre := [Correlated(Verbose), Correlated(Debug), Correlated(Information), Correlated(Warning)];
    var low := [Correlated(Verbose), Correlated(Debug)];
    var high := [Correlated(Information), Correlated(Warning)];
    assert pre == low + high;
    FilterDropsAll(AtLeast(Error), pre);
    FilterAppend(AtLeast(Information), low, high);
    FilterDropsAll(AtLeast(Information), low);
    FilterKeepsAll(AtLeast(Information), high);
    Snoc(DeferrableBy(th), [Correlated(Verbose)], Correlated(Debug), low);
    FilterSingleton(DeferrableBy(th), Correlated(Verbose));
    FilterAppend(DeferrableBy(th), low, high);
    FilterDropsAll(DeferrableBy(th), high);
  }

  /**
   * The six records followed by Verbose, Debug, Information, Verbose, Debug,
   * Warning, Verbose, Debug: once latched the buffer streams every record at
   * or above Debug live, so ten records are forwarded.
   */
  lemma CorrelatedFourteenForwardsTen()
    ensures EmitAll(TestSink, map[], 0, CorrelatedSix() + CorrelatedEight()).forwarded
            == [Correlated(Information), Correlated(Warning), Correlated(Debug), Correlated(Error), Correlated(Fatal),
                Correlated(Debug), Correlated(Information), Correlated(Debug), Correlated(Warning), Correlated(Debug)]
    ensures |EmitAll(TestSink, map[], 0, CorrelatedSix() + CorrelatedEight()).forwarded| == 10
  {
    var rs := CorrelatedSix() + CorrelatedEight();
    assert forall x :: x in CorrelatedSix() ==> CorrelationKey(CorrelationId, x) == Some(CorrelationValue);
    assert forall x :: x in CorrelatedEight() ==> CorrelationKey(CorrelationId, x) == Some(CorrelationValue);
    assert forall x :: x in rs ==> x in CorrelatedSix() || x in CorrelatedEight();
    SingleCorrelationOutput(rs);
    CorrelatedFourteenRun();
  }

  /** The lone buffer's view of the fourteen records. */
  lemma CorrelatedFourteenRun()
    ensures Run(TestThresholds, Create(CorrelationValue, 0), CorrelatedSix() + CorrelatedEight()).forwarded
            == [Correlated(Information), Correlated(Warning), Correlated(Debug), Correlated(Error), Correlated(Fatal),
                Correlated(Debug), Correlated(Information), Correlated(Debug), Correlated(Warning), Correlated(Debug)]
  {
    var th := TestThresholds;
    var b := Create(CorrelationValue, 0);
    var six := Run(th, b, CorrelatedSix());
    CorrelatedSixRun();
    RunAppend(th, b, CorrelatedSix(), CorrelatedEight());
    RunLatchedStreams(th, six.buffer, CorrelatedEight());
    AfterTheTrigger();
  }

  /** Of the eight records after the latch, all but the Verbose ones are admitted. */
  lemma AfterTheTrigger()
    ensures Filter(AdmittedBy(TestThresholds), CorrelatedEight())
            == [Correlated(Debug), Correlated(Information), Correlated(Debug), Correlated(Warning), Correlated(Debug)]
  {
    var sel := AdmittedBy(TestThresholds);
    var e := CorrelatedEight();
    Snoc(sel, [], e[0], e[..1]);
    Snoc(sel, e[..1], e[1], e[..2]);
    Snoc(sel, e[..2], e[2], e[..3]);
    Snoc(sel, e[..3], e[3], e[..4]);
    Snoc(sel, e[..4], e[4], e[..5]);
    Snoc(sel, e[..5], e[5], e[..6]);
    Snoc(sel, e[..6], e[6], e[..7]);
    Snoc(sel, e[..7], e[7], e);
  }

  /** Verbose..Fatal without correlation: only the four at or above Information are forwarded. */
  lemma UncorrelatedSixForwardsFour()
    ensures EmitAll(TestSink, map[], 0, UncorrelatedSix()).forwarded
            == [Uncorrelated(Information), Uncorrelated(Warning), Uncorrelated(Error), Uncorrelated(Fatal)]
  {
    assert forall x :: x in UncorrelatedSix() ==> CorrelationKey(CorrelationId, x).None?;
    NoCorrelationOutput(UncorrelatedSix());
    UncorrelatedSixFiltered();
  }

  /** Of the six uncorrelated records, the four at or above Information, in order. */
  lemma UncorrelatedSixFiltered()
    ensures Filter(AtLeast(Information), UncorrelatedSix())
            == [Uncorrelated(Information), Uncorrelated(Warning), Uncorrelated(Error), Uncorrelated(Fatal)]
  {
    var low := [Uncorrelated(Verbose), Uncorrelated(Debug)];
    var high := [Uncorrelated(Information), Uncorrelated(Warning), Uncorrelated(Error), Uncorrelated(Fatal)];
    assert UncorrelatedSix() == low + high;
    FilterAppend(AtLeast(Information), low, high);
    FilterDropsAll(AtLeast(Information), low);
    FilterKeepsAll(AtLeast(Information), high);
  }

  /** The same six uncorrelated records twice: the four forwarded records, twice. */
  lemma UncorrelatedTwelveForwardsEight()
    ensures EmitAll(TestSink, map[], 0, UncorrelatedSix() + UncorrelatedSix()).forwarded
            == [Uncorrelated(Information), Uncorrelated(Warning), Uncorrelated(Error), Uncorrelated(Fatal),
                Uncorrelated(Information), Uncorrelated(Warning), Uncorrelated(Error), Uncorrelated(Fatal)]
    ensures |EmitAll(TestSink, map[], 0, UncorrelatedSix() + UncorrelatedSix()).forwarded| == 8
  {
    var six := UncorrelatedSix();
    var rs := six + six;
    assert forall x :: x in six ==> CorrelationKey(CorrelationId, x).None?;
    assert forall x :: x in rs ==> x in six;
    NoCorrelationOutput(rs);
    UncorrelatedSixFiltered();
    FilterAppend(AtLeast(Information), six, six);
  }

  // ---- the high-volume streams --------------------------------------------

  lemma ModAfterBlocks(n: nat, p: nat, j: nat)
    requires (p == 4 || p == 6) && j < p
    ensures (p * n + j) % p == j
  {
    if p == 4 {
      ModAfterFours(n, j);
    } else {
      ModAfterSixes(n, j);
    }
  }

  lemma ModAfterFours(n: nat, j: nat)
    requires j < 4
    ensures (4 * n + j) % 4 == j
  {
  }

  lemma ModAfterSixes(n: nat, j: nat)
    requires j < 6
    ensures (6 * n + j) % 6 == j
  {
  }

  lemma CycleBlocks(n: nat, p: nat)
    requires p == 4 || p == 6
    ensures Cycle(p * (n + 1), p) == Cycle(p * n, p) + Cycle(p, p)
  {
    var whole := Cycle(p * (n + 1), p);
    var front := Cycle(p * n, p);
    var block := Cycle(p, p);
    assert p * (n + 1) == p * n + p;
    forall i | 0 <= i < p * (n + 1)
      ensures whole[i] == (front + block)[i]
    {
      if i >= p * n {
        ModAfterBlocks(n, p, i - p * n);
        ModAfterBlocks(0, p, i - p * n);
      }
    }
  }

  /** A selector that picks `c` records of one block picks `c * n` of `n` blocks. */
  lemma {:induction false} CycleCount(sel: Selector, n: nat, p: nat, c: nat)
    requires p == 4 || p == 6
    requires |Filter(sel, Cycle(p, p))| == c
    ensures |Filter(sel, Cycle(p * n, p))| == c * n
  {
    if n > 0 {
      var m := n - 1;
      var front := Cycle(p * m, p);
      var block := Cycle(p, p);
      CycleCount(sel, m, p, c);
      assert Cycle(p * n, p) == front + block by {
        CycleBlocks(m, p);
      }
      FilterAppend(sel, front, block);
      MulSucc(c, m);
    }
  }

  lemma MulSucc(c: nat, m: nat)
    ensures c * (m + 1) == c * m + c
  {
  }

  lemma CycleIsCorrelated(count: nat, p: nat)
    requires 1 <= p <= 6
    ensures forall x :: x in Cycle(count, p) ==> CorrelationKey(CorrelationId, x) == Some(CorrelationValue)
  {
  }

  lemma FourBlock()
    ensures Filter(AtLeast(Information), Cycle(4, 4)) == [Correlated(Information), Correlated(Warning)]
  {
    var low := [Correlated(Verbose), Correlated(Debug)];
    var high := [Correlated(Information), Correlated(Warning)];
    assert Cycle(4, 4) == low + high;
    FilterAppend(AtLeast(Information), low, high);
    FilterDropsAll(AtLeast(Information), low);
    FilterKeepsAll(AtLeast(Information), high);
  }

  lemma SixBlock()
    ensures |Filter(AtLeast(Debug), Cycle(6, 6))| == 5
  {
    var low := [Correlated(Verbose)];
    var high := [Correlated(Debug), Correlated(Information), Correlated(Warning), Correlated(Error), Correlated(Fatal)];
    assert Cycle(6, 6) == low + high;
    FilterAppend(AtLeast(Debug), low, high);
    FilterDropsAll(AtLeast(Debug), low);
    FilterKeepsAll(AtLeast(Debug), high);
  }

  /**
   * Levels cycling Verbose, Debug, Information, Warning (never a trigger):
   * exactly the Information and Warning records are forwarded, 2 of every 4.
   */
  lemma BelowTriggerForwardsHalf(n: nat)
    ensures |EmitAll(TestSink, map[], 0, Cycle(4 * n, 4)).forwarded| == 2 * n
  {
    var rs := Cycle(4 * n, 4);
    CycleIsCorrelated(4 * n, 4);
    SingleCorrelationOutput(rs);
    FilterDropsAll(AtLeast(Error), rs);
    FreshBufferOutput(TestThresholds, CorrelationValue, 0, rs);
    FourBlock();
    CycleCount(AtLeast(Information), n, 4, 2);
  }

  /**
   * Levels cycling through all six (each block holds an Error): every record
   * at or above Debug is forwarded exactly once, 5 of every 6.
   */
  lemma WithTriggerForwardsFiveSixths(n: nat)
    requires n >= 1
    ensures |EmitAll(TestSink, map[], 0, Cycle(6 * n, 6)).forwarded| == 5 * n
  {
    var rs := Cycle(6 * n, 6);
    CycleIsCorrelated(6 * n, 6);
    SingleCorrelationOutput(rs);
    assert rs[4] == Correlated(Error);
    FilterMembers(AtLeast(Error), rs);
    assert rs[4] in Filter(AtLeast(Error), rs);
    FreshBufferOutput(TestThresholds, CorrelationValue, 0, rs);
    var out := EmitAll(TestSink, map[], 0, rs).forwarded;
    assert |multiset(out)| == |multiset(Filter(AtLeast(Debug), rs))|;
    SixBlock();
    CycleCount(AtLeast(Debug), n, 6, 5);
  }

  /** One million records cycling the four lowest levels: 500000 forwarded. */
  lemma MillionBelowTrigger()
    ensures |EmitAll(TestSink, map[], 0, Cycle(1000000, 4)).forwarded| == 500000
  {
    BelowTriggerForwardsHalf(250000);
  }

  /** 1.2 million records cycling all six levels: 1000000 forwarded. */
  lemma MillionWithTrigger()
    ensures |EmitAll(TestSink, map[], 0, Cycle(1200000, 6)).forwarded| == 1000000
  {
    WithTriggerForwardsFiveSixths(200000);
  }

  /**
   * The configuration test: the target action asks for Debug, the call passes
   * `level`, and the downstream logger ends up at `level`.
   */
  lemma TargetLoggerTakesMinimumLevel(level: Level)
    ensures var args := SinkConfiguration.Arguments(
              Some(SinkConfiguration.TargetSetup(Some(Debug), false)), Some(CorrelationId), 2000, Information, Error, level);
            && SinkConfiguration.MementoGroup(args).result.Success?
            && SinkConfiguration.MementoGroup(args).result.value.targetMinimumLevel == level
  {
    assert !SinkConfiguration.IsWhiteSpace(CorrelationId[0]);
  }
}
