/**
 * The per-correlation buffer (LogEntryBuffer): a FIFO queue of deferred
 * records that one trigger-level record flushes and detaches for good.
 * Writes are pure functions returning the new buffer and the records handed
 * to the downstream logger, in the order they are handed over.
 */
module LogEntryBuffer {
  import opened Events

  /** Collecting: the queue exists. Latched: the queue was detached (set to null) by a flush. */
  datatype State = Collecting(queue: seq<LogRecord>) | Latched

  datatype Buffer = Buffer(key: string, lastActivity: int, state: State)

  /** The buffer after an operation, and the records it forwarded, oldest first. */
  datatype Step = Step(buffer: Buffer, forwarded: seq<LogRecord>)

  /** The records a buffer still holds back (none once latched). */
  function Pending(b: Buffer): seq<LogRecord>
  {
    if b.state.Collecting? then b.state.queue else []
  }

  /** A new buffer: an empty queue, stamped with the clock reading at creation. */
  function Create(key: string, now: int): (b: Buffer)
    ensures b.key == key && b.lastActivity == now
    ensures b.state.Collecting? && Pending(b) == []
  {
    Buffer(key, now, Collecting([]))
  }

  /** Detach the queue and forward its records oldest first; the buffer is latched afterwards. */
  function Flush(b: Buffer): (s: Step)
    ensures s.buffer.state == Latched
    ensures s.buffer.key == b.key && s.buffer.lastActivity == b.lastActivity
    ensures s.forwarded == Pending(b)
  {
    match b.state
    case Collecting(q) => Step(b.(state := Latched), q)
    case Latched => Step(b, [])
  }

  /** Accept one record: stamp the activity time, flush on a trigger, then forward, queue or drop it. */
  function Write(th: Thresholds, b: Buffer, r: LogRecord): (s: Step)
    ensures s.buffer.key == b.key
    ensures s.buffer.lastActivity == r.timestamp
    ensures s.buffer.state.Latched? <==> b.state.Latched? || r.level >= th.trigger
  {
    var stamped := b.(lastActivity := r.timestamp);
    var flushed := if r.level >= th.trigger then Flush(stamped) else Step(stamped, []);
    var buf := flushed.buffer;
    if r.level >= th.passthrough then
      Step(buf, flushed.forwarded + [r])
    else if r.level >= th.minimum then
      match buf.state
      case Collecting(q) => Step(buf.(state := Collecting(q + [r])), flushed.forwarded)
      case Latched => Step(buf, flushed.forwarded + [r])
    else
      flushed
  }

  /**
   * Where one written record goes. After a trigger, or on a buffer latched
   * before, the old queue is released first and then the record itself if it
   * is admitted. On a buffer still collecting, the record is forwarded live at
   * passthrough, appended to the end of the queue in the deferrable band, and
   * dropped otherwise.
   */
  lemma WriteRoutes(th: Thresholds, b: Buffer, r: LogRecord)
    ensures b.state.Latched? || r.level >= th.trigger ==>
              Write(th, b, r).forwarded == Pending(b) + Filter(AdmittedBy(th), [r])
    ensures b.state.Collecting? && r.level < th.trigger ==>
              && Write(th, b, r).forwarded == Filter(AtLeast(th.passthrough), [r])
              && Write(th, b, r).buffer.state == Collecting(b.state.queue + Filter(DeferrableBy(th), [r]))
  {
    var w := Write(th, b, r);
    FilterSingleton(AdmittedBy(th), r);
    if b.state.Latched? || r.level >= th.trigger {
      var released := Flush(b.(lastActivity := r.timestamp)).forwarded;
      assert released == Pending(b);
      if r.level >= th.passthrough || r.level >= th.minimum {
        assert w.forwarded == released + [r];
      } else {
        assert w.forwarded == released;
      }
    } else {
      FilterSingleton(AtLeast(th.passthrough), r);
      FilterSingleton(DeferrableBy(th), r);
      if r.level >= th.passthrough {
        assert w.forwarded == [r] && w.buffer.state == b.state;
      } else if r.level >= th.minimum {
        assert w.forwarded == [] && w.buffer.state == Collecting(b.state.queue + [r]);
      } else {
        assert w.forwarded == [] && w.buffer.state == b.state;
      }
    }
  }

  /** A write holds back nothing beyond what the buffer held before and the record written. */
  lemma WritePendingFrom(th: Thresholds, b: Buffer, r: LogRecord)
    ensures forall q :: q in Pending(Write(th, b, r).buffer) ==> q in Pending(b) || q == r
  {
    WriteRoutes(th, b, r);
    FilterMembers(DeferrableBy(th), [r]);
  }

  /** One write loses or duplicates nothing except a record below both thresholds, which it drops. */
  lemma WriteConserves(th: Thresholds, b: Buffer, r: LogRecord)
    ensures multiset(Pending(Write(th, b, r).buffer)) + multiset(Write(th, b, r).forwarded)
            == multiset(Pending(b)) + multiset(Filter(AdmittedBy(th), [r]))
  {
    var w := Write(th, b, r);
    var admitted := Filter(AdmittedBy(th), [r]);
    WriteRoutes(th, b, r);
    if b.state.Latched? || r.level >= th.trigger {
      assert Pending(w.buffer) == [];
      assert multiset(w.forwarded) == multiset(Pending(b)) + multiset(admitted);
    } else {
      var live := Filter(AtLeast(th.passthrough), [r]);
      var queued := Filter(DeferrableBy(th), [r]);
      assert Pending(w.buffer) == Pending(b) + queued;
      FilterSingleton(AdmittedBy(th), r);
      FilterSingleton(AtLeast(th.passthrough), r);
      FilterSingleton(DeferrableBy(th), r);
      assert multiset(queued) + multiset(live) == multiset(admitted);
    }
  }

  /** Apply `step` to the records of `rs` one after another, collecting everything forwarded. */
  function Fold(step: (Thresholds, Buffer, LogRecord) -> Step, th: Thresholds, b: Buffer, rs: seq<LogRecord>): (s: Step)
    decreases |rs|
  {
    if rs == [] then Step(b, [])
    else
      var prior := Fold(step, th, b, rs[..|rs| - 1]);
      var last := step(th, prior.buffer, rs[|rs| - 1]);
      Step(last.buffer, prior.forwarded + last.forwarded)
  }

  lemma {:induction false} FoldAppend(step: (Thresholds, Buffer, LogRecord) -> Step, th: Thresholds, b: Buffer, xs: seq<LogRecord>, ys: seq<LogRecord>)
    ensures Fold(step, th, b, xs + ys) ==
            Step(Fold(step, th, Fold(step, th, b, xs).buffer, ys).buffer,
                 Fold(step, th, b, xs).forwarded + Fold(step, th, Fold(step, th, b, xs).buffer, ys).forwarded)
    decreases |ys|
  {
    if ys == [] {
      assert xs + ys == xs;
    } else {
      var ys' := ys[..|ys| - 1];
      var r := ys[|ys| - 1];
      assert ys == ys' + [r];
      assert (xs + ys)[..|xs + ys| - 1] == xs + ys';
      assert (xs + ys)[|xs + ys| - 1] == r;
      FoldAppend(step, th, b, xs, ys');
    }
  }

  /** Write the records of `rs` to one buffer, one after another. */
  function Run(th: Thresholds, b: Buffer, rs: seq<LogRecord>): (s: Step)
    ensures s.buffer.key == b.key
    ensures b.state.Latched? ==> s.buffer.state.Latched?
    ensures rs != [] ==> s.buffer.lastActivity == rs[|rs| - 1].timestamp
  {
    RunFacts(th, b, rs);
    Fold(Write, th, b, rs)
  }

  lemma {:induction false} RunFacts(th: Thresholds, b: Buffer, rs: seq<LogRecord>)
    ensures Fold(Write, th, b, rs).buffer.key == b.key
    ensures b.state.Latched? ==> Fold(Write, th, b, rs).buffer.state.Latched?
    ensures rs != [] ==> Fold(Write, th, b, rs).buffer.lastActivity == rs[|rs| - 1].timestamp
    decreases |rs|
  {
    if rs != [] {
      RunFacts(th, b, rs[..|rs| - 1]);
    }
  }

  lemma RunSnoc(th: Thresholds, b: Buffer, rs: seq<LogRecord>, r: LogRecord)
    ensures Run(th, b, rs + [r]) ==
            Step(Write(th, Run(th, b, rs).buffer, r).buffer,
                 Run(th, b, rs).forwarded + Write(th, Run(th, b, rs).buffer, r).forwarded)
  {
    assert (rs + [r])[..|rs + [r]| - 1] == rs;
  }

  /** RunSnoc for a sequence `t` already known to be `rs + [r]`. */
  lemma RunSnocAt(th: Thresholds, b: Buffer, rs: seq<LogRecord>, r: LogRecord, t: seq<LogRecord>)
    requires t == rs + [r]
    ensures Run(th, b, t) ==
            Step(Write(th, Run(th, b, rs).buffer, r).buffer,
                 Run(th, b, rs).forwarded + Write(th, Run(th, b, rs).buffer, r).forwarded)
  {
    RunSnoc(th, b, rs, r);
  }

  lemma RunSingle(th: Thresholds, b: Buffer, r: LogRecord)
    ensures Run(th, b, [r]) == Write(th, b, r)
  {
    RunSnoc(th, b, [], r);
  }

  /** Writing `xs` then `ys` is writing `xs + ys`. */
  lemma RunAppend(th: Thresholds, b: Buffer, xs: seq<LogRecord>, ys: seq<LogRecord>)
    ensures Run(th, b, xs + ys) ==
            Step(Run(th, Run(th, b, xs).buffer, ys).buffer,
                 Run(th, b, xs).forwarded + Run(th, Run(th, b, xs).buffer, ys).forwarded)
  {
    FoldAppend(Write, th, b, xs, ys);
  }

  /** Flushing twice forwards nothing the second time: the queue is detached only once. */
  lemma FlushOnce(b: Buffer)
    ensures Flush(Flush(b).buffer) == Step(Flush(b).buffer, [])
  {
  }

  /**
   * Conservation: over any run, the records still queued plus the records
   * forwarded are exactly the records queued before plus the admitted
   * records written; nothing is forwarded twice and nothing admitted is lost.
   */
  lemma {:induction false} RunConserves(th: Thresholds, b: Buffer, rs: seq<LogRecord>)
    ensures multiset(Pending(Run(th, b, rs).buffer)) + multiset(Run(th, b, rs).forwarded)
            == multiset(Pending(b)) + multiset(Filter(AdmittedBy(th), rs))
    decreases |rs|
  {
    if rs != [] {
      var init := rs[..|rs| - 1];
      var r := rs[|rs| - 1];
      assert rs == init + [r];
      var prior := Run(th, b, init);
      var last := Write(th, prior.buffer, r);
      RunSnocAt(th, b, init, r, rs);
      assert Run(th, b, rs) == Step(last.buffer, prior.forwarded + last.forwarded);
      RunConserves(th, b, init);
      WriteConserves(th, prior.buffer, r);
      assert multiset(prior.forwarded + last.forwarded) == multiset(prior.forwarded) + multiset(last.forwarded);
      FilterAppend(AdmittedBy(th), init, [r]);
      calc {
        multiset(Pending(Run(th, b, rs).buffer)) + multiset(Run(th, b, rs).forwarded);
        multiset(Pending(last.buffer)) + multiset(last.forwarded) + multiset(prior.forwarded);
        // WriteConserves
        multiset(Pending(prior.buffer)) + multiset(Filter(AdmittedBy(th), [r])) + multiset(prior.forwarded);
        // the induction hypothesis
        multiset(Pending(b)) + multiset(Filter(AdmittedBy(th), init)) + multiset(Filter(AdmittedBy(th), [r]));
        multiset(Pending(b)) + multiset(Filter(AdmittedBy(th), rs));
      }
    }
  }

  /** Once latched, a buffer streams every admitted record live, in order, and stays latched. */
  lemma {:induction false} RunLatchedStreams(th: Thresholds, b: Buffer, rs: seq<LogRecord>)
    requires b.state.Latched?
    ensures Run(th, b, rs).buffer.state.Latched?
    ensures Run(th, b, rs).forwarded == Filter(AdmittedBy(th), rs)
    decreases |rs|
  {
    if rs != [] {
      var init := rs[..|rs| - 1];
      var r := rs[|rs| - 1];
      assert rs == init + [r];
      RunSnocAt(th, b, init, r, rs);
      RunLatchedStreams(th, b, init);
      WriteRoutes(th, Run(th, b, init).buffer, r);
      FilterAppend(AdmittedBy(th), init, [r]);
    }
  }

  /**
   * Without a trigger-level record a collecting buffer keeps collecting: it
   * forwards exactly the records at or above passthrough, in order, and
   * appends the deferrable ones to its queue, in order.
   */
  lemma {:induction false} RunWithoutTrigger(th: Thresholds, b: Buffer, rs: seq<LogRecord>)
    requires b.state.Collecting?
    requires Filter(AtLeast(th.trigger), rs) == []
    ensures Run(th, b, rs).buffer.state == Collecting(b.state.queue + Filter(DeferrableBy(th), rs))
    ensures Run(th, b, rs).forwarded == Filter(AtLeast(th.passthrough), rs)
    decreases |rs|
  {
    if rs != [] {
      var init := rs[..|rs| - 1];
      var r := rs[|rs| - 1];
      assert rs == init + [r];
      RunSnocAt(th, b, init, r, rs);
      FilterAppend(AtLeast(th.trigger), init, [r]);
      FilterSingleton(AtLeast(th.trigger), r);
      RunWithoutTrigger(th, b, init);
      WriteRoutes(th, Run(th, b, init).buffer, r);
      FilterAppend(DeferrableBy(th), init, [r]);
      FilterAppend(AtLeast(th.passthrough), init, [r]);
    }
  }

  /**
   * The first trigger-level record `t` of a collecting buffer releases, after
   * the live records before it, the whole queue oldest first (what was queued
   * before plus the deferrable records of `pre`), and then `t` itself and
   * every later admitted record, live and in order.
   */
  lemma FirstTriggerFlushes(th: Thresholds, b: Buffer, pre: seq<LogRecord>, t: LogRecord, post: seq<LogRecord>)
    requires b.state.Collecting?
    requires Filter(AtLeast(th.trigger), pre) == []
    requires t.level >= th.trigger
    ensures Run(th, b, pre + [t] + post).buffer.state == Latched
    ensures Run(th, b, pre + [t] + post).forwarded
            == Filter(AtLeast(th.passthrough), pre)
               + (b.state.queue + Filter(DeferrableBy(th), pre))
               + Filter(AdmittedBy(th), [t] + post)
  {
    var s1 := Run(th, b, pre);
    RunWithoutTrigger(th, b, pre);
    var s2 := Run(th, s1.buffer, [t]);
    RunSingle(th, s1.buffer, t);
    WriteRoutes(th, s1.buffer, t);
    assert s2.buffer.state == Latched;
    assert s2.forwarded == (b.state.queue + Filter(DeferrableBy(th), pre)) + Filter(AdmittedBy(th), [t]);
    var s3 := Run(th, s2.buffer, post);
    RunLatchedStreams(th, s2.buffer, post);
    RunAppend(th, b, pre, [t]);
    assert Run(th, b, pre + [t]) == Step(s2.buffer, s1.forwarded + s2.forwarded);
    RunAppend(th, b, pre + [t], post);
    assert Run(th, b, pre + [t] + post) == Step(s3.buffer, (s1.forwarded + s2.forwarded) + s3.forwarded);
    FilterAppend(AdmittedBy(th), [t], post);
    Regroup(s1.forwarded, b.state.queue + Filter(DeferrableBy(th), pre), Filter(AdmittedBy(th), [t]), s3.forwarded);
  }

  lemma Regroup<T>(a: seq<T>, b: seq<T>, c: seq<T>, d: seq<T>)
    ensures (a + (b + c)) + d == a + b + (c + d)
  {
  }

  /** Any trigger-level record in the stream leaves the buffer latched. */
  lemma {:induction false} TriggerLatches(th: Thresholds, b: Buffer, rs: seq<LogRecord>)
    requires Filter(AtLeast(th.trigger), rs) != []
    ensures Run(th, b, rs).buffer.state == Latched
    decreases |rs|
  {
    var init := rs[..|rs| - 1];
    var r := rs[|rs| - 1];
    assert rs == init + [r];
    RunSnocAt(th, b, init, r, rs);
    FilterAppend(AtLeast(th.trigger), init, [r]);
    FilterSingleton(AtLeast(th.trigger), r);
    if r.level < th.trigger {
      TriggerLatches(th, b, init);
    }
  }

  /**
   * With at least one trigger-level record, every record queued before and
   * every admitted record written is forwarded, each exactly once.
   */
  lemma TriggeredForwardsAllAdmitted(th: Thresholds, b: Buffer, rs: seq<LogRecord>)
    requires Filter(AtLeast(th.trigger), rs) != []
    ensures multiset(Run(th, b, rs).forwarded) == multiset(Pending(b)) + multiset(Filter(AdmittedBy(th), rs))
    ensures |Run(th, b, rs).forwarded| == |Pending(b)| + |Filter(AdmittedBy(th), rs)|
  {
    TriggerLatches(th, b, rs);
    RunConserves(th, b, rs);
    assert |multiset(Run(th, b, rs).forwarded)| == |multiset(Pending(b)) + multiset(Filter(AdmittedBy(th), rs))|;
  }

  /** With minimum at or below passthrough, the admitted records are those at or above minimum. */
  lemma AdmittedIsAtLeastMinimum(th: Thresholds, rs: seq<LogRecord>)
    requires th.minimum <= th.passthrough
    ensures Filter(AdmittedBy(th), rs) == Filter(AtLeast(th.minimum), rs)
  {
    FilterAgree(AdmittedBy(th), AtLeast(th.minimum), rs);
  }

  /**
   * A fresh buffer under minimum <= passthrough: with no trigger-level record
   * the output is exactly the records at or above passthrough, in order; with
   * one, it is every record at or above minimum, each exactly once.
   */
  lemma FreshBufferOutput(th: Thresholds, key: string, now: int, rs: seq<LogRecord>)
    requires th.minimum <= th.passthrough
    ensures Filter(AtLeast(th.trigger), rs) == [] ==>
              Run(th, Create(key, now), rs).forwarded == Filter(AtLeast(th.passthrough), rs)
    ensures Filter(AtLeast(th.trigger), rs) != [] ==>
              multiset(Run(th, Create(key, now), rs).forwarded) == multiset(Filter(AtLeast(th.minimum), rs))
  {
    AdmittedIsAtLeastMinimum(th, rs);
    if Filter(AtLeast(th.trigger), rs) == [] {
      RunWithoutTrigger(th, Create(key, now), rs);
    } else {
      TriggeredForwardsAllAdmitted(th, Create(key, now), rs);
    }
  }

  /**
   * With passthrough at or below minimum nothing is ever queued: an empty
   * buffer forwards exactly the records at or above passthrough, live and in
   * order, whatever triggers arrive.
   */
  lemma {:induction false} PassthroughAtMostMinimumNeverQueues(th: Thresholds, b: Buffer, rs: seq<LogRecord>)
    requires th.passthrough <= th.minimum
    requires Pending(b) == []
    ensures Pending(Run(th, b, rs).buffer) == []
    ensures Run(th, b, rs).forwarded == Filter(AtLeast(th.passthrough), rs)
    decreases |rs|
  {
    if rs != [] {
      var init := rs[..|rs| - 1];
      var r := rs[|rs| - 1];
      assert rs == init + [r];
      RunSnocAt(th, b, init, r, rs);
      PassthroughAtMostMinimumNeverQueues(th, b, init);
      WriteRoutes(th, Run(th, b, init).buffer, r);
      FilterAppend(AtLeast(th.passthrough), init, [r]);
      FilterSingleton(AtLeast(th.passthrough), r);
      FilterSingleton(AdmittedBy(th), r);
      FilterSingleton(DeferrableBy(th), r);
    }
  }
}
