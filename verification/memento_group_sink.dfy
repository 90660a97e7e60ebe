/**
 * The routing sink (MementoGroupSink): a registry of per-correlation buffers,
 * the per-record routing of Emit, and the expiry sweep of the background loop
 * as a pure function of an explicit clock reading.
 */
module MementoGroupSink {
  import opened Wrappers
  import opened Events
  import opened LogEntryBuffer

  /** The sink's construction parameters; `bufferExpiry` is in ticks. */
  datatype Sink = Sink(correlationProperty: string, bufferExpiry: int, thresholds: Thresholds)

  /** Buffers by correlation key. */
  type Registry = map<string, Buffer>

  /** The registry after an operation, and the records forwarded downstream, in order. */
  datatype Emitted = Emitted(registry: Registry, forwarded: seq<LogRecord>)

  /** A registry after a get-or-add, and the buffer registered under the key. */
  datatype Added = Added(registry: Registry, buffer: Buffer)

  /**
   * ConcurrentDictionary.GetOrAdd: the buffer already under `key`, or a new
   * one stamped `now` that is registered under it. An existing entry is never
   * replaced and no other key changes.
   */
  function GetOrAdd(reg: Registry, key: string, now: int): (a: Added)
    ensures a.registry.Keys == reg.Keys + {key}
    ensures a.registry[key] == a.buffer
    ensures forall k :: k in reg ==> a.registry[k] == reg[k]
    ensures key !in reg ==> a.buffer == Create(key, now)
  {
    if key in reg then Added(reg, reg[key]) else Added(reg[key := Create(key, now)], Create(key, now))
  }

  /** Route one record: direct level check without a key, its key's buffer otherwise. */
  function Emit(sink: Sink, reg: Registry, now: int, r: LogRecord): (e: Emitted)
    ensures CorrelationKey(sink.correlationProperty, r).None? ==>
              e.registry == reg && e.forwarded == Filter(AtLeast(sink.thresholds.passthrough), [r])
    ensures CorrelationKey(sink.correlationProperty, r).Some? ==>
              var key := CorrelationKey(sink.correlationProperty, r).value;
              && e.registry.Keys == reg.Keys + {key}
              && (forall k :: k in reg && k != key ==> e.registry[k] == reg[k])
              && e.registry[key] == Write(sink.thresholds, GetOrAdd(reg, key, now).buffer, r).buffer
              && e.forwarded == Write(sink.thresholds, GetOrAdd(reg, key, now).buffer, r).forwarded
  {
    FilterSingleton(AtLeast(sink.thresholds.passthrough), r);
    match CorrelationKey(sink.correlationProperty, r)
    case Some(key) =>
      var added := GetOrAdd(reg, key, now);
      var written := Write(sink.thresholds, added.buffer, r);
      Emitted(added.registry[key := written.buffer], written.forwarded)
    case None =>
      if r.level >= sink.thresholds.passthrough then Emitted(reg, [r]) else Emitted(reg, [])
  }

  /** Emit the records of `rs` one after another, all with the clock reading `now`. */
  function EmitAll(sink: Sink, reg: Registry, now: int, rs: seq<LogRecord>): (e: Emitted)
    ensures reg.Keys <= e.registry.Keys
    decreases |rs|
  {
    if rs == [] then Emitted(reg, [])
    else
      var prior := EmitAll(sink, reg, now, rs[..|rs| - 1]);
      var last := Emit(sink, prior.registry, now, rs[|rs| - 1]);
      Emitted(last.registry, prior.forwarded + last.forwarded)
  }

  /**
   * Every buffer sits under its own key and holds back only records that
   * carry that key.
   */
  predicate Consistent(sink: Sink, reg: Registry)
  {
    forall k :: k in reg ==>
      && reg[k].key == k
      && forall q :: q in Pending(reg[k]) ==> CorrelationKey(sink.correlationProperty, q) == Some(k)
  }

  /** The clock reading at creation is overwritten by the first write, so Emit does not depend on it. */
  lemma EmitIgnoresClock(sink: Sink, reg: Registry, now1: int, now2: int, r: LogRecord)
    ensures Emit(sink, reg, now1, r) == Emit(sink, reg, now2, r)
  {
  }

  lemma EmitKeepsConsistent(sink: Sink, reg: Registry, now: int, r: LogRecord)
    requires Consistent(sink, reg)
    ensures Consistent(sink, Emit(sink, reg, now, r).registry)
  {
    var p := sink.correlationProperty;
    var e := Emit(sink, reg, now, r);
    if CorrelationKey(p, r).Some? {
      var key := CorrelationKey(p, r).value;
      var b := GetOrAdd(reg, key, now).buffer;
      var w := Write(sink.thresholds, b, r);
      WritePendingFrom(sink.thresholds, b, r);
      assert b.key == key && forall q :: q in Pending(b) ==> CorrelationKey(p, q) == Some(key);
      forall k | k in e.registry
        ensures e.registry[k].key == k
        ensures forall q :: q in Pending(e.registry[k]) ==> CorrelationKey(p, q) == Some(k)
      {
        if k == key {
          assert e.registry[k] == w.buffer;
        } else {
          assert e.registry[k] == reg[k];
        }
      }
    }
  }

  /** Emitting a record forwards only records of that record's own correlation (or none). */
  lemma EmitForwardsOwnCorrelation(sink: Sink, reg: Registry, now: int, r: LogRecord)
    requires Consistent(sink, reg)
    ensures forall x :: x in Emit(sink, reg, now, r).forwarded ==>
              CorrelationKey(sink.correlationProperty, x) == CorrelationKey(sink.correlationProperty, r)
  {
    var p := sink.correlationProperty;
    FilterSingleton(AtLeast(sink.thresholds.passthrough), r);
    if CorrelationKey(p, r).Some? {
      var key := CorrelationKey(p, r).value;
      var b := GetOrAdd(reg, key, now).buffer;
      assert forall q :: q in Pending(b) ==> CorrelationKey(p, q) == Some(key) by {
        if key !in reg {
          assert Pending(b) == [];
        }
      }
      WriteRoutes(sink.thresholds, b, r);
      FilterSingleton(AdmittedBy(sink.thresholds), r);
      FilterSingleton(AtLeast(sink.thresholds.passthrough), r);
      assert forall x :: x in Write(sink.thresholds, b, r).forwarded ==> x in Pending(b) || x == r;
    }
  }

  lemma EmitAllSnoc(sink: Sink, reg: Registry, now: int, rs: seq<LogRecord>, r: LogRecord)
    ensures EmitAll(sink, reg, now, rs + [r]) ==
            Emitted(Emit(sink, EmitAll(sink, reg, now, rs).registry, now, r).registry,
                    EmitAll(sink, reg, now, rs).forwarded
                    + Emit(sink, EmitAll(sink, reg, now, rs).registry, now, r).forwarded)
  {
    assert (rs + [r])[..|rs + [r]| - 1] == rs;
  }

  lemma {:induction false} EmitAllKeepsConsistent(sink: Sink, reg: Registry, now: int, rs: seq<LogRecord>)
    requires Consistent(sink, reg)
    ensures Consistent(sink, EmitAll(sink, reg, now, rs).registry)
    decreases |rs|
  {
    if rs != [] {
      var init := rs[..|rs| - 1];
      EmitAllKeepsConsistent(sink, reg, now, init);
      EmitKeepsConsistent(sink, EmitAll(sink, reg, now, init).registry, now, rs[|rs| - 1]);
    }
  }

  /** One emit, seen from one correlation key: only a record with that key touches it. */
  lemma EmitPerKey(sink: Sink, reg: Registry, now: int, r: LogRecord, key: string)
    requires Consistent(sink, reg)
    ensures var step := Emit(sink, reg, now, r);
            var sel := Keyed(sink.correlationProperty, key);
            var w := Write(sink.thresholds, GetOrAdd(reg, key, now).buffer, r);
            if CorrelationKey(sink.correlationProperty, r) == Some(key) then
              && Filter(sel, step.forwarded) == w.forwarded
              && GetOrAdd(step.registry, key, now).buffer == w.buffer
              && key in step.registry
            else
              && Filter(sel, step.forwarded) == []
              && GetOrAdd(step.registry, key, now).buffer == GetOrAdd(reg, key, now).buffer
              && (key in step.registry <==> key in reg)
  {
    var sel := Keyed(sink.correlationProperty, key);
    var step := Emit(sink, reg, now, r);
    EmitForwardsOwnCorrelation(sink, reg, now, r);
    if CorrelationKey(sink.correlationProperty, r) == Some(key) {
      FilterKeepsAll(sel, step.forwarded);
    } else {
      FilterDropsAll(sel, step.forwarded);
    }
  }

  /**
   * Keys are independent, as far as the registry goes: a key's buffer after
   * any sequence of emits is the one a lone buffer reaches when fed only that
   * key's records, and the key is registered iff it was before or one of its
   * records arrived.
   */
  lemma {:induction false} EmitAllKeyBuffer(sink: Sink, reg: Registry, now: int, rs: seq<LogRecord>, key: string)
    requires Consistent(sink, reg)
    ensures var e := EmitAll(sink, reg, now, rs);
            var alone := Run(sink.thresholds, GetOrAdd(reg, key, now).buffer, Filter(Keyed(sink.correlationProperty, key), rs));
            && GetOrAdd(e.registry, key, now).buffer == alone.buffer
            && (key in e.registry <==> key in reg || Filter(Keyed(sink.correlationProperty, key), rs) != [])
    decreases |rs|
  {
    var p := sink.correlationProperty;
    var th := sink.thresholds;
    var sel := Keyed(p, key);
    if rs != [] {
      var init := rs[..|rs| - 1];
      var r := rs[|rs| - 1];
      assert rs == init + [r];
      EmitAllKeyBuffer(sink, reg, now, init, key);
      var e0 := EmitAll(sink, reg, now, init);
      var step := Emit(sink, e0.registry, now, r);
      assert EmitAll(sink, reg, now, rs).registry == step.registry by {
        EmitAllSnoc(sink, reg, now, init, r);
      }
      var before := Filter(sel, init);
      var b0 := GetOrAdd(reg, key, now).buffer;
      var alone0 := Run(th, b0, before);
      EmitAllKeepsConsistent(sink, reg, now, init);
      EmitPerKey(sink, e0.registry, now, r, key);
      FilterAppend(sel, init, [r]);
      FilterSingleton(sel, r);
      if CorrelationKey(p, r) == Some(key) {
        assert Filter(sel, rs) == before + [r];
        RunSnocAt(th, b0, before, r, Filter(sel, rs));
      } else {
        assert Filter(sel, rs) == before;
      }
    }
  }

  /** One emit, seen from one key's lone buffer: what it forwards for the key extends that buffer's run by the record, if it is the key's. */
  lemma ForwardedStep(sink: Sink, reg: Registry, now: int, r: LogRecord, key: string, b0: Buffer, before: seq<LogRecord>)
    requires Consistent(sink, reg)
    requires GetOrAdd(reg, key, now).buffer == Run(sink.thresholds, b0, before).buffer
    ensures var sel := Keyed(sink.correlationProperty, key);
            Run(sink.thresholds, b0, before + Filter(sel, [r])).forwarded
            == Run(sink.thresholds, b0, before).forwarded + Filter(sel, Emit(sink, reg, now, r).forwarded)
  {
    var th := sink.thresholds;
    var sel := Keyed(sink.correlationProperty, key);
    EmitPerKey(sink, reg, now, r, key);
    FilterSingleton(sel, r);
    if CorrelationKey(sink.correlationProperty, r) == Some(key) {
      RunSnocAt(th, b0, before, r, before + [r]);
    } else {
      assert before + Filter(sel, [r]) == before;
    }
  }

  /**
   * Keys are independent, as far as forwarding goes: the records forwarded
   * for one correlation key are exactly what a lone buffer forwards when fed
   * only that key's records.
   */
  lemma {:induction false} EmitAllKeyForwarded(sink: Sink, reg: Registry, now: int, rs: seq<LogRecord>, key: string)
    requires Consistent(sink, reg)
    ensures Filter(Keyed(sink.correlationProperty, key), EmitAll(sink, reg, now, rs).forwarded)
            == Run(sink.thresholds, GetOrAdd(reg, key, now).buffer, Filter(Keyed(sink.correlationProperty, key), rs)).forwarded
    decreases |rs|
  {
    var sel := Keyed(sink.correlationProperty, key);
    if rs != [] {
      var init := rs[..|rs| - 1];
      var r := rs[|rs| - 1];
      assert rs == init + [r];
      var e0 := EmitAll(sink, reg, now, init);
      var step := Emit(sink, e0.registry, now, r);
      EmitAllSnoc(sink, reg, now, init, r);
      FilterAppend(sel, e0.forwarded, step.forwarded);
      FilterAppend(sel, init, [r]);
      EmitAllKeyForwarded(sink, reg, now, init, key);
      EmitAllKeyBuffer(sink, reg, now, init, key);
      EmitAllKeepsConsistent(sink, reg, now, init);
      ForwardedStep(sink, e0.registry, now, r, key, GetOrAdd(reg, key, now).buffer, Filter(sel, init));
    }
  }

  /**
   * Keys are independent: the records forwarded for one correlation key, and
   * that key's buffer, are exactly what a lone buffer produces when fed only
   * that key's records; the key is registered iff it was before or one of its
   * records arrived.
   */
  lemma EmitAllPerKey(sink: Sink, reg: Registry, now: int, rs: seq<LogRecord>, key: string)
    requires Consistent(sink, reg)
    ensures var e := EmitAll(sink, reg, now, rs);
            var alone := Run(sink.thresholds, GetOrAdd(reg, key, now).buffer, Filter(Keyed(sink.correlationProperty, key), rs));
            && Filter(Keyed(sink.correlationProperty, key), e.forwarded) == alone.forwarded
            && GetOrAdd(e.registry, key, now).buffer == alone.buffer
            && (key in e.registry <==> key in reg || Filter(Keyed(sink.correlationProperty, key), rs) != [])
  {
    EmitAllKeyForwarded(sink, reg, now, rs, key);
    EmitAllKeyBuffer(sink, reg, now, rs, key);
  }

  /** One emit, seen from the records without the correlation property. */
  lemma EmitUnkeyed(sink: Sink, reg: Registry, now: int, r: LogRecord)
    requires Consistent(sink, reg)
    ensures Filter(Unkeyed(sink.correlationProperty), Emit(sink, reg, now, r).forwarded)
            == Filter(AtLeast(sink.thresholds.passthrough), Filter(Unkeyed(sink.correlationProperty), [r]))
  {
    var sel := Unkeyed(sink.correlationProperty);
    var step := Emit(sink, reg, now, r);
    EmitForwardsOwnCorrelation(sink, reg, now, r);
    FilterSingleton(sel, r);
    if CorrelationKey(sink.correlationProperty, r).None? {
      assert step.forwarded == Filter(AtLeast(sink.thresholds.passthrough), [r]);
      assert Filter(sel, [r]) == [r];
      FilterKeepsAll(sel, step.forwarded);
    } else {
      assert Filter(sel, [r]) == [];
      FilterDropsAll(sel, step.forwarded);
    }
  }

  /** Records without the correlation property are forwarded iff at or above passthrough, in order. */
  lemma {:induction false} EmitAllUnkeyed(sink: Sink, reg: Registry, now: int, rs: seq<LogRecord>)
    requires Consistent(sink, reg)
    ensures Filter(Unkeyed(sink.correlationProperty), EmitAll(sink, reg, now, rs).forwarded)
            == Filter(AtLeast(sink.thresholds.passthrough), Filter(Unkeyed(sink.correlationProperty), rs))
    decreases |rs|
  {
    var sel := Unkeyed(sink.correlationProperty);
    var live := AtLeast(sink.thresholds.passthrough);
    if rs != [] {
      var init := rs[..|rs| - 1];
      var r := rs[|rs| - 1];
      assert rs == init + [r];
      EmitAllUnkeyed(sink, reg, now, init);
      var e0 := EmitAll(sink, reg, now, init);
      EmitAllKeepsConsistent(sink, reg, now, init);
      var step := Emit(sink, e0.registry, now, r);
      EmitAllSnoc(sink, reg, now, init, r);
      assert EmitAll(sink, reg, now, rs) == Emitted(step.registry, e0.forwarded + step.forwarded);
      EmitUnkeyed(sink, e0.registry, now, r);
      FilterAppend(sel, e0.forwarded, step.forwarded);
      FilterAppend(sel, init, [r]);
      FilterAppend(live, Filter(sel, init), Filter(sel, [r]));
    }
  }

  /** When every record carries the same correlation value, so does everything forwarded. */
  lemma {:induction false} EmitAllOneCorrelation(sink: Sink, reg: Registry, now: int, rs: seq<LogRecord>, c: Option<string>)
    requires Consistent(sink, reg)
    requires forall x :: x in rs ==> CorrelationKey(sink.correlationProperty, x) == c
    ensures forall x :: x in EmitAll(sink, reg, now, rs).forwarded ==> CorrelationKey(sink.correlationProperty, x) == c
    decreases |rs|
  {
    if rs != [] {
      var init := rs[..|rs| - 1];
      var r := rs[|rs| - 1];
      assert rs == init + [r];
      EmitAllOneCorrelation(sink, reg, now, init, c);
      EmitAllKeepsConsistent(sink, reg, now, init);
      EmitForwardsOwnCorrelation(sink, EmitAll(sink, reg, now, init).registry, now, r);
    }
  }

  // ---- Expiry sweep -------------------------------------------------------

  /** The buffers whose last activity is not before `cutoff`, unchanged. */
  function Sweep(reg: Registry, cutoff: int): Registry
  {
    map k | k in reg && reg[k].lastActivity >= cutoff :: reg[k]
  }

  /**
   * One pass of the background loop at clock reading `now`: remove, one key
   * at a time, every buffer idle since before `now - bufferExpiry`, whether
   * it is collecting or latched.
   */
  method SweepExpired(sink: Sink, reg: Registry, now: int) returns (live: Registry)
    ensures forall k :: k in live <==> k in reg && reg[k].lastActivity + sink.bufferExpiry >= now
    ensures forall k :: k in live ==> live[k] == reg[k]
    ensures live == Sweep(reg, now - sink.bufferExpiry)
  {
    var expiryTime := now - sink.bufferExpiry;
    var expired := set k | k in reg && reg[k].lastActivity < expiryTime;
    live := reg;
    while expired != {}
      invariant expired <= live.Keys
      invariant forall k :: k in live <==> k in reg && (reg[k].lastActivity >= expiryTime || k in expired)
      invariant forall k :: k in live ==> live[k] == reg[k]
      decreases expired
    {
      var k :| k in expired;
      live := live - {k};
      expired := expired - {k};
    }
  }

  /** Sweeping twice with the same cutoff removes nothing more. */
  lemma SweepIdempotent(reg: Registry, cutoff: int)
    ensures Sweep(Sweep(reg, cutoff), cutoff) == Sweep(reg, cutoff)
  {
  }

  /** Successive sweeps amount to one sweep at the later cutoff. */
  lemma SweepTwice(reg: Registry, c1: int, c2: int)
    ensures Sweep(Sweep(reg, c1), c2) == Sweep(reg, if c1 <= c2 then c2 else c1)
  {
  }

  lemma SweepKeepsConsistent(sink: Sink, reg: Registry, cutoff: int)
    requires Consistent(sink, reg)
    ensures Consistent(sink, Sweep(reg, cutoff))
  {
  }

  /**
   * After its buffer was swept away, a key starts again from an empty
   * collecting buffer: whatever was queued for it is gone.
   */
  lemma EmitAfterExpiry(sink: Sink, reg: Registry, cutoff: int, now: int, r: LogRecord)
    requires CorrelationKey(sink.correlationProperty, r).Some?
    requires CorrelationKey(sink.correlationProperty, r).value in reg
    requires reg[CorrelationKey(sink.correlationProperty, r).value].lastActivity < cutoff
    ensures var key := CorrelationKey(sink.correlationProperty, r).value;
            var restart := Write(sink.thresholds, Create(key, now), r);
            && Emit(sink, Sweep(reg, cutoff), now, r).registry[key] == restart.buffer
            && Emit(sink, Sweep(reg, cutoff), now, r).forwarded == restart.forwarded
  {
  }
}
