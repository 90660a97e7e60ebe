/**
 * The parts of a Serilog log event that the buffering sink reads: the level,
 * the timestamp and the property map; plus order-preserving filters over
 * sequences of events.
 */
module Events {
  import opened Wrappers

  /**
   * Serilog's LogEventLevel, an enum over `int` that C# compares by value.
   * The named members are 0..5, but any 32-bit value can be passed or carried,
   * such as 6 (Serilog's LevelAlias.Off), which no named level reaches.
   */
  newtype Level = n: int | -0x8000_0000 <= n < 0x8000_0000

  const Verbose: Level := 0
  const Debug: Level := 1
  const Information: Level := 2
  const Warning: Level := 3
  const Error: Level := 4
  const Fatal: Level := 5
  /** LevelAlias.Off: one above Fatal. */
  const Off: Level := 6

  /**
   * A log event. `timestamp` is in .NET ticks (100 ns); `properties` maps a
   * property name to the already-rendered text of its value.
   */
  datatype LogRecord = LogRecord(timestamp: int, level: Level, properties: map<string, string>)

  /** The correlation key of a record: the rendered value of the named property, if present. */
  function CorrelationKey(propertyName: string, r: LogRecord): (k: Option<string>)
    ensures k.Some? <==> propertyName in r.properties
    ensures k.Some? ==> k.value == r.properties[propertyName]
  {
    if propertyName in r.properties then Some(r.properties[propertyName]) else None
  }

  /** The three level thresholds a sink and each of its buffers are built with. */
  datatype Thresholds = Thresholds(passthrough: Level, trigger: Level, minimum: Level)

  /** A record that a buffer forwards, either at once or eventually, rather than dropping. */
  predicate Admitted(th: Thresholds, r: LogRecord)
  {
    r.level >= th.passthrough || r.level >= th.minimum
  }

  /** A record that a collecting buffer holds back instead of forwarding. */
  predicate Deferrable(th: Thresholds, r: LogRecord)
  {
    r.level < th.passthrough && r.level >= th.minimum
  }

  /** The record classes the model filters sequences by. */
  datatype Selector =
    | AtLeast(level: Level)
    | DeferrableBy(th: Thresholds)
    | AdmittedBy(th: Thresholds)
    | Keyed(propertyName: string, key: string)
    | Unkeyed(propertyName: string)

  predicate Selects(sel: Selector, r: LogRecord)
  {
    match sel
    case AtLeast(l) => r.level >= l
    case DeferrableBy(th) => Deferrable(th, r)
    case AdmittedBy(th) => Admitted(th, r)
    case Keyed(p, k) => CorrelationKey(p, r) == Some(k)
    case Unkeyed(p) => CorrelationKey(p, r).None?
  }

  /** The records of `s` that `sel` selects, in their original order. */
  function Filter(sel: Selector, s: seq<LogRecord>): (f: seq<LogRecord>)
    ensures |f| <= |s|
  {
    if s == [] then []
    else
      var init := Filter(sel, s[..|s| - 1]);
      var last := s[|s| - 1];
      if Selects(sel, last) then init + [last] else init
  }

  /** A filter keeps exactly the records of `s` that its selector selects. */
  lemma {:induction false} FilterMembers(sel: Selector, s: seq<LogRecord>)
    ensures forall r :: r in Filter(sel, s) <==> r in s && Selects(sel, r)
    decreases |s|
  {
    if s != [] {
      assert s == s[..|s| - 1] + [s[|s| - 1]];
      FilterMembers(sel, s[..|s| - 1]);
    }
  }

  lemma {:induction false} FilterAppend(sel: Selector, a: seq<LogRecord>, b: seq<LogRecord>)
    ensures Filter(sel, a + b) == Filter(sel, a) + Filter(sel, b)
    decreases |b|
  {
    if b == [] {
      assert a + b == a;
    } else {
      var b' := b[..|b| - 1];
      assert (a + b)[..|a + b| - 1] == a + b';
      assert (a + b)[|a + b| - 1] == b[|b| - 1];
      FilterAppend(sel, a, b');
    }
  }

  lemma FilterSingleton(sel: Selector, r: LogRecord)
    ensures Filter(sel, [r]) == if Selects(sel, r) then [r] else []
  {
    assert [r][..0] == [];
  }

  /** A filter that selects every record of `s` returns `s` itself. */
  lemma {:induction false} FilterKeepsAll(sel: Selector, s: seq<LogRecord>)
    requires forall r :: r in s ==> Selects(sel, r)
    ensures Filter(sel, s) == s
    decreases |s|
  {
    if s != [] {
      assert s == s[..|s| - 1] + [s[|s| - 1]];
      FilterKeepsAll(sel, s[..|s| - 1]);
    }
  }

  /** A filter that selects no record of `s` returns the empty sequence. */
  lemma FilterDropsAll(sel: Selector, s: seq<LogRecord>)
    requires forall r :: r in s ==> !Selects(sel, r)
    ensures Filter(sel, s) == []
  {
    FilterMembers(sel, s);
  }

  /** Two selectors that agree on every record of `s` filter it identically. */
  lemma {:induction false} FilterAgree(sel1: Selector, sel2: Selector, s: seq<LogRecord>)
    requires forall r :: r in s ==> (Selects(sel1, r) <==> Selects(sel2, r))
    ensures Filter(sel1, s) == Filter(sel2, s)
    decreases |s|
  {
    if s != [] {
      assert s == s[..|s| - 1] + [s[|s| - 1]];
      FilterAgree(sel1, sel2, s[..|s| - 1]);
    }
  }
}
