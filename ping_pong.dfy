/**
 * The acquisition loop of the sampling task as functions on a value that
 * holds everything the loop reads or writes: the two ping-pong buffers
 * (the globals `g_inbuf[0]` and `g_inbuf[1]`), the index published to the
 * demodulator (`demod_buf_index`), the buffer being filled (`current_buf`),
 * the stop flag (`exit_task`), the metadata log (`rx_log`, as the records
 * written to it; `LogText` gives the lines of the file) and the number of
 * wake-ups sent to the demodulator (`in_available`).
 *
 * One loop iteration is three phases: publish the other buffer's index,
 * receive into the current buffer (then wake the demodulator), log the
 * receive and toggle the current buffer. The class in SamplingTask is
 * proved to act on its fields as these functions say.
 */
module PingPong {
  import opened Options
  import opened Samples
  import opened StreamText
  import opened RxMetadata

  datatype TaskView = TaskView(
    inbuf0: seq<Sample>,
    inbuf1: seq<Sample>,
    demodBufIndex: int,
    currentBuf: int,
    exitTask: bool,
    rxLog: seq<LogEntry>,
    wakeSignals: nat)

  /** What one iteration writes to `rx_log`: the value `recv` returned and the metadata it filled in. */
  datatype LogEntry = LogEntry(rxNum: nat, md: Metadata)

  /** What `rx_stream->recv` delivered in one iteration, and whether `stop()` ran meanwhile. */
  datatype Delivery = Delivery(samples: seq<Sample>, md: Metadata, stopRequested: bool)

  /** Both buffer indices stay 0 or 1. */
  predicate Inv(v: TaskView) {
    0 <= v.currentBuf <= 1 && 0 <= v.demodBufIndex <= 1
  }

  /** The other buffer index. */
  function Flip(i: int): (j: int)
    requires 0 <= i <= 1
    ensures 0 <= j <= 1 && j != i
  {
    1 - i
  }

  /** `Flip` is the source's `i ^ 1` on the two buffer indices, and undoes itself. */
  lemma FlipIsXorOne(i: int)
    requires 0 <= i <= 1
    ensures Flip(i) == ((i as bv2) ^ 1) as int
    ensures Flip(Flip(i)) == i
  {
    if i == 0 {
      assert (0 as bv2) ^ 1 == 1;
    } else {
      assert (1 as bv2) ^ 1 == 0;
    }
  }

  /** `g_inbuf[i]`. */
  function Buffer(v: TaskView, i: int): seq<Sample>
    requires 0 <= i <= 1
  {
    if i == 0 then v.inbuf0 else v.inbuf1
  }

  /** The contents of a buffer after `recv` wrote `samples` from its start; the rest keeps its old contents. */
  function Fill(buf: seq<Sample>, samples: seq<Sample>): (r: seq<Sample>)
    requires |samples| <= |buf|
    ensures |r| == |buf|
    ensures r[..|samples|] == samples
    ensures r[|samples|..] == buf[|samples|..]
  {
    samples + buf[|samples|..]
  }

  /** Lines 124-126: the mutex-guarded `demod_buf_index = current_buf ^ 1`, as one atomic update. */
  function Publish(v: TaskView): (w: TaskView)
    requires Inv(v)
    ensures Inv(w)
    ensures w.demodBufIndex != w.currentBuf
    ensures w == v.(demodBufIndex := w.demodBufIndex)
  {
    v.(demodBufIndex := Flip(v.currentBuf))
  }

  /** Lines 128-131: `recv` into `g_inbuf[current_buf]`, at most its size, then wake the demodulator. */
  function Receive(v: TaskView, samples: seq<Sample>): (w: TaskView)
    requires Inv(v)
    requires |samples| <= |Buffer(v, v.currentBuf)|
    ensures Inv(w)
    ensures Buffer(w, v.currentBuf) == Fill(Buffer(v, v.currentBuf), samples)
    ensures Buffer(w, Flip(v.currentBuf)) == Buffer(v, Flip(v.currentBuf))
    ensures w.wakeSignals == v.wakeSignals + 1
    ensures w.(inbuf0 := v.inbuf0, inbuf1 := v.inbuf1, wakeSignals := v.wakeSignals) == v
  {
    if v.currentBuf == 0 then
      v.(inbuf0 := Fill(v.inbuf0, samples), wakeSignals := v.wakeSignals + 1)
    else
      v.(inbuf1 := Fill(v.inbuf1, samples), wakeSignals := v.wakeSignals + 1)
  }

  const SAMPLES_RECEIVED_PREFIX: string := "Samples Received: "

  /** Lines 134-136: the text logged for one receive: a blank line, the sample count, the metadata. */
  function LogRecord(rxNum: nat, md: Metadata): (lines: seq<string>)
    ensures |lines| == 2 + |DisplayRxMetadata(md)|
    ensures lines[0] == "" && SAMPLES_RECEIVED_PREFIX <= lines[1]
    ensures lines[2..] == DisplayRxMetadata(md)
  {
    ["", SAMPLES_RECEIVED_PREFIX + NatText(rxNum)] + DisplayRxMetadata(md)
  }

  /** What a reader recovers from one record of `rx_log`: the sample count and the visible metadata. */
  datatype RecordReading = RecordReading(rxNum: nat, md: Reading)

  /** Reads one record back: the blank line, the sample-count line, then the metadata lines. */
  function ParseLogRecord(lines: seq<string>): Option<RecordReading> {
    if |lines| < 2 || lines[0] != "" then None
    else
      var countText :- StripPrefix(SAMPLES_RECEIVED_PREFIX, lines[1]);
      var rxNum :- ParseNat(countText);
      var md :- ParseRxMetadata(lines[2..]);
      Some(RecordReading(rxNum, md))
  }

  /** A record reads back as the sample count `recv` returned and the metadata it filled in. */
  lemma LogRecordReadsBack(rxNum: nat, md: Metadata)
    ensures ParseLogRecord(LogRecord(rxNum, md)) == Some(RecordReading(rxNum, Visible(md)))
  {
    var lines := LogRecord(rxNum, md);
    assert lines[2..] == DisplayRxMetadata(md);
    StripPrefixOfConcat(SAMPLES_RECEIVED_PREFIX, NatText(rxNum));
    NatTextRoundTrip(rxNum);
    DisplayRoundTrip(md);
  }

  /** The lines of several chunks of text written one after the other. */
  function Concat(chunks: seq<seq<string>>): seq<string>
    decreases |chunks|
  {
    if chunks == [] then [] else chunks[0] + Concat(chunks[1..])
  }

  lemma {:induction false} ConcatJoin(a: seq<seq<string>>, b: seq<seq<string>>)
    ensures Concat(a + b) == Concat(a) + Concat(b)
    decreases |a|
  {
    if a == [] {
      assert a + b == b;
    } else {
      assert (a + b)[1..] == a[1..] + b;
      ConcatJoin(a[1..], b);
    }
  }

  /** The text of each record, in order. */
  function RecordTexts(log: seq<LogEntry>): (texts: seq<seq<string>>)
    ensures |texts| == |log|
    ensures forall i :: 0 <= i < |log| ==> texts[i] == LogRecord(log[i].rxNum, log[i].md)
  {
    seq(|log|, i requires 0 <= i < |log| => LogRecord(log[i].rxNum, log[i].md))
  }

  /** The lines of `rx_log` after the given records were written to it, in order. */
  function LogText(log: seq<LogEntry>): seq<string> {
    Concat(RecordTexts(log))
  }

  /** Writing one more record appends exactly that record's text to the file. */
  lemma LogTextAppend(log: seq<LogEntry>, e: LogEntry)
    ensures LogText(log + [e]) == LogText(log) + LogRecord(e.rxNum, e.md)
  {
    LogTextConcat(log, [e]);
    assert RecordTexts([e]) == [LogRecord(e.rxNum, e.md)];
    assert Concat(RecordTexts([e])) == LogRecord(e.rxNum, e.md) + Concat([]);
  }

  /** The text of consecutive runs of records is the text of the first run followed by that of the second. */
  lemma LogTextConcat(a: seq<LogEntry>, b: seq<LogEntry>)
    ensures LogText(a + b) == LogText(a) + LogText(b)
  {
    assert RecordTexts(a + b) == RecordTexts(a) + RecordTexts(b);
    ConcatJoin(RecordTexts(a), RecordTexts(b));
  }

  /** Lines 134-143: write the record, then `current_buf ^= 1`. */
  function LogAndToggle(v: TaskView, rxNum: nat, md: Metadata): (w: TaskView)
    requires Inv(v)
    ensures Inv(w)
    ensures w.currentBuf == Flip(v.currentBuf)
    ensures w.rxLog == v.rxLog + [LogEntry(rxNum, md)]
    ensures w == v.(rxLog := w.rxLog, currentBuf := w.currentBuf)
  {
    v.(rxLog := v.rxLog + [LogEntry(rxNum, md)], currentBuf := Flip(v.currentBuf))
  }

  /** One iteration of the `while (!exit_task)` loop of `run()`. */
  function Iterate(v: TaskView, samples: seq<Sample>, md: Metadata): (w: TaskView)
    requires Inv(v)
    requires |samples| <= |Buffer(v, v.currentBuf)|
    ensures Inv(w)
    // the index handed to the demodulator is the buffer not being written
    ensures w.demodBufIndex == Flip(v.currentBuf)
    // only the current buffer is written, and within it only the received prefix
    ensures Buffer(w, v.currentBuf) == Fill(Buffer(v, v.currentBuf), samples)
    ensures Buffer(w, Flip(v.currentBuf)) == Buffer(v, Flip(v.currentBuf))
    ensures |w.inbuf0| == |v.inbuf0| && |w.inbuf1| == |v.inbuf1|
    // the producer moves to the other buffer
    ensures w.currentBuf == Flip(v.currentBuf)
    // exactly one record is logged and one wake-up sent; the error code does not touch the stop flag
    ensures w.rxLog == v.rxLog + [LogEntry(|samples|, md)]
    ensures w.wakeSignals == v.wakeSignals + 1
    ensures w.exitTask == v.exitTask
  {
    LogAndToggle(Receive(Publish(v), samples), |samples|, md)
  }

  /**
   * At the moment of the receive, the published index is never the buffer
   * being written, and the receive leaves the published buffer as it was.
   */
  lemma PublishedBufferUntouchedByReceive(v: TaskView, samples: seq<Sample>)
    requires Inv(v)
    requires |samples| <= |Buffer(v, v.currentBuf)|
    ensures Publish(v).demodBufIndex != Publish(v).currentBuf
    ensures Buffer(Receive(Publish(v), samples), Publish(v).demodBufIndex) == Buffer(v, Publish(v).demodBufIndex)
  {
  }

  /**
   * Between iterations the published index equals `current_buf`: it names
   * the buffer the next receive will write until the next iteration
   * republishes. A consumer that reads the index after the wake-up of line
   * 131 but before the next publish is handed that buffer.
   */
  lemma PublishedIndexBetweenIterations(v: TaskView, samples: seq<Sample>, md: Metadata)
    requires Inv(v)
    requires |samples| <= |Buffer(v, v.currentBuf)|
    ensures Iterate(v, samples, md).demodBufIndex == Iterate(v, samples, md).currentBuf
  {
  }

  /** `stop()`: set the stop flag and nothing else. */
  function StopSpec(v: TaskView): (w: TaskView)
    ensures w.exitTask
    ensures w.(exitTask := v.exitTask) == v
  {
    v.(exitTask := true)
  }

  lemma StopIdempotent(v: TaskView)
    ensures StopSpec(StopSpec(v)) == StopSpec(v)
  {
  }

  /** `start()` (lines 80-81) and the head of `run()` (line 118): the stop flag cleared, buffer 0 current. */
  function StartSpec(v: TaskView): (w: TaskView)
    ensures !w.exitTask && w.currentBuf == 0
    ensures w.(exitTask := v.exitTask, currentBuf := v.currentBuf) == v
  {
    v.(exitTask := false, currentBuf := 0)
  }

  /** Every delivery fits in either buffer: what `recv` promises when both buffers have one capacity. */
  predicate Fits(cap0: nat, cap1: nat, script: seq<Delivery>)
    decreases |script|
  {
    script == [] || (|script[0].samples| <= cap0 && |script[0].samples| <= cap1 && Fits(cap0, cap1, script[1..]))
  }

  /** Every delivery of a fitting script fits, and so does every part of the script. */
  lemma {:induction false} FitsSlices(cap0: nat, cap1: nat, script: seq<Delivery>, k: nat)
    requires Fits(cap0, cap1, script) && k <= |script|
    ensures Fits(cap0, cap1, script[..k]) && Fits(cap0, cap1, script[k..])
    ensures k < |script| ==> |script[k].samples| <= cap0 && |script[k].samples| <= cap1
    decreases k
  {
    if k == 0 {
      assert script[..0] == [] && script[0..] == script;
    } else {
      FitsSlices(cap0, cap1, script[1..], k - 1);
      assert script[..k][1..] == script[1..][..k - 1];
      assert script[k..] == script[1..][k - 1..];
    }
  }

  /** One iteration, then the stop flag if `stop()` was called during it. */
  function AfterIteration(v: TaskView, d: Delivery): (w: TaskView)
    requires Inv(v)
    requires |d.samples| <= |v.inbuf0| && |d.samples| <= |v.inbuf1|
    ensures Inv(w)
    ensures |w.inbuf0| == |v.inbuf0| && |w.inbuf1| == |v.inbuf1|
    ensures w.demodBufIndex == Flip(v.currentBuf)
    ensures Buffer(w, v.currentBuf) == Fill(Buffer(v, v.currentBuf), d.samples)
    ensures Buffer(w, Flip(v.currentBuf)) == Buffer(v, Flip(v.currentBuf))
    ensures w.currentBuf == Flip(v.currentBuf)
    ensures w.exitTask == (v.exitTask || d.stopRequested)
    ensures w.rxLog == v.rxLog + [LogEntry(|d.samples|, d.md)]
    ensures w.wakeSignals == v.wakeSignals + 1
  {
    var w := Iterate(v, d.samples, d.md);
    if d.stopRequested then StopSpec(w) else w
  }

  /** The loop `while (!exit_task) { ... }` run against a script of deliveries. */
  function RunLoop(v: TaskView, script: seq<Delivery>): (r: TaskView)
    requires Inv(v)
    requires Fits(|v.inbuf0|, |v.inbuf1|, script)
    // a loop whose stop flag is already set runs no iteration
    ensures v.exitTask ==> r == v
    // the loop ends with its stop flag clear only after using up every delivery
    ensures !r.exitTask ==> LoopCount(v.exitTask, script) == |script|
    decreases |script|
  {
    if v.exitTask || script == [] then v
    else RunLoop(AfterIteration(v, script[0]), script[1..])
  }

  /** A running loop with a delivery left runs one iteration and carries on with the rest. */
  lemma RunLoopUnfold(v: TaskView, script: seq<Delivery>)
    requires Inv(v) && !v.exitTask && script != []
    requires Fits(|v.inbuf0|, |v.inbuf1|, script)
    ensures var w := AfterIteration(v, script[0]);
            && Fits(|w.inbuf0|, |w.inbuf1|, script[1..])
            && RunLoop(v, script) == RunLoop(w, script[1..])
            && LoopCount(v.exitTask, script) == 1 + LoopCount(w.exitTask, script[1..])
  {
    var w := AfterIteration(v, script[0]);
    assert Fits(|w.inbuf0|, |w.inbuf1|, script[1..]);
  }

  /** How many iterations the loop runs: it looks only at the stop flag, never at the metadata. */
  function LoopCount(exitTask: bool, script: seq<Delivery>): nat
    decreases |script|
  {
    if exitTask || script == [] then 0
    else 1 + LoopCount(script[0].stopRequested, script[1..])
  }

  /** The records a run of the loop over these deliveries writes, one per delivery, in order. */
  function Entries(script: seq<Delivery>): (log: seq<LogEntry>)
    decreases |script|
  {
    if script == [] then []
    else [LogEntry(|script[0].samples|, script[0].md)] + Entries(script[1..])
  }

  /** Without a stop request, the loop runs once per delivery whatever error codes the deliveries carry. */
  lemma {:induction false} NoStopRunsEveryDelivery(script: seq<Delivery>)
    requires forall i :: 0 <= i < |script| ==> !script[i].stopRequested
    ensures LoopCount(false, script) == |script|
    decreases |script|
  {
    if script != [] {
      NoStopRunsEveryDelivery(script[1..]);
    }
  }

  /** A stop request during iteration k ends the loop after exactly k + 1 iterations. */
  lemma {:induction false} StopEndsLoopAfterCurrentIteration(script: seq<Delivery>, k: nat)
    requires k < |script| && script[k].stopRequested
    requires forall i :: 0 <= i < k ==> !script[i].stopRequested
    ensures LoopCount(false, script) == k + 1
    decreases k
  {
    if k > 0 {
      StopEndsLoopAfterCurrentIteration(script[1..], k - 1);
    }
  }

  /** Running the loop keeps both indices in range and both capacities, and never runs past the script. */
  lemma {:induction false} RunLoopKeepsShape(v: TaskView, script: seq<Delivery>)
    requires Inv(v)
    requires Fits(|v.inbuf0|, |v.inbuf1|, script)
    ensures LoopCount(v.exitTask, script) <= |script|
    ensures Inv(RunLoop(v, script))
    ensures |RunLoop(v, script).inbuf0| == |v.inbuf0| && |RunLoop(v, script).inbuf1| == |v.inbuf1|
    decreases |script|
  {
    if !(v.exitTask || script == []) {
      RunLoopUnfold(v, script);
      RunLoopKeepsShape(AfterIteration(v, script[0]), script[1..]);
    }
  }

  /** The producer index flips once per iteration. */
  lemma {:induction false} RunLoopParity(v: TaskView, script: seq<Delivery>)
    requires Inv(v)
    requires Fits(|v.inbuf0|, |v.inbuf1|, script)
    ensures RunLoop(v, script).currentBuf
         == if LoopCount(v.exitTask, script) % 2 == 0 then v.currentBuf else Flip(v.currentBuf)
    ensures RunLoop(v, script).wakeSignals == v.wakeSignals + LoopCount(v.exitTask, script)
    decreases |script|
  {
    if !(v.exitTask || script == []) {
      var w := AfterIteration(v, script[0]);
      RunLoopUnfold(v, script);
      RunLoopParity(w, script[1..]);
      assert v.currentBuf == Flip(w.currentBuf);
    }
  }

  /** The loop never runs more iterations than there are deliveries. */
  lemma {:induction false} LoopCountBound(exitTask: bool, script: seq<Delivery>)
    ensures LoopCount(exitTask, script) <= |script|
    decreases |script|
  {
    if !(exitTask || script == []) {
      LoopCountBound(script[0].stopRequested, script[1..]);
    }
  }

  /** The records of the first n deliveries: the first delivery's, then those of the next n - 1. */
  lemma EntriesOfPrefix(script: seq<Delivery>, n: nat)
    requires 0 < n <= |script|
    ensures Entries(script[..n]) == [LogEntry(|script[0].samples|, script[0].md)] + Entries(script[1..][..n - 1])
  {
    assert script[..n][0] == script[0];
    assert script[..n][1..] == script[1..][..n - 1];
  }

  /** The records written by the iterations the loop runs, as the loop itself decides when to stop. */
  function Logged(exitTask: bool, script: seq<Delivery>): seq<LogEntry>
    decreases |script|
  {
    if exitTask || script == [] then []
    else [LogEntry(|script[0].samples|, script[0].md)] + Logged(script[0].stopRequested, script[1..])
  }

  /** The records the loop writes are those of the first LoopCount deliveries. */
  lemma {:induction false} LoggedIsExecutedPrefix(exitTask: bool, script: seq<Delivery>)
    ensures LoopCount(exitTask, script) <= |script|
    ensures Logged(exitTask, script) == Entries(script[..LoopCount(exitTask, script)])
    decreases |script|
  {
    LoopCountBound(exitTask, script);
    if exitTask || script == [] {
      assert script[..0] == [];
    } else {
      LoggedIsExecutedPrefix(script[0].stopRequested, script[1..]);
      EntriesOfPrefix(script, LoopCount(exitTask, script));
    }
  }

  /** Regrouping the log after one appended record, kept apart so the loop proof need not rediscover it. */
  lemma AppendRegroup(log: seq<LogEntry>, e: LogEntry, rest: seq<LogEntry>)
    ensures (log + [e]) + rest == log + ([e] + rest)
  {
  }

  /** Every iteration writes its own record to the log, in order, and nothing else is written. */
  lemma {:induction false} RunLoopLogged(v: TaskView, script: seq<Delivery>)
    requires Inv(v)
    requires Fits(|v.inbuf0|, |v.inbuf1|, script)
    ensures RunLoop(v, script).rxLog == v.rxLog + Logged(v.exitTask, script)
    decreases |script|
  {
    if !(v.exitTask || script == []) {
      var w := AfterIteration(v, script[0]);
      RunLoopUnfold(v, script);
      RunLoopLogged(w, script[1..]);
      AppendRegroup(v.rxLog, LogEntry(|script[0].samples|, script[0].md), Logged(w.exitTask, script[1..]));
    }
  }

  /** The log after the loop: its old records, then one record per executed iteration, in delivery order. */
  lemma RunLoopLog(v: TaskView, script: seq<Delivery>)
    requires Inv(v)
    requires Fits(|v.inbuf0|, |v.inbuf1|, script)
    ensures LoopCount(v.exitTask, script) <= |script|
    ensures RunLoop(v, script).rxLog == v.rxLog + Entries(script[..LoopCount(v.exitTask, script)])
  {
    RunLoopLogged(v, script);
    LoggedIsExecutedPrefix(v.exitTask, script);
  }

  /** The log file after the loop: its old lines, then each executed iteration's record text, in order. */
  lemma RunLoopLogText(v: TaskView, script: seq<Delivery>)
    requires Inv(v)
    requires Fits(|v.inbuf0|, |v.inbuf1|, script)
    ensures LoopCount(v.exitTask, script) <= |script|
    ensures LogText(RunLoop(v, script).rxLog)
         == LogText(v.rxLog) + LogText(Entries(script[..LoopCount(v.exitTask, script)]))
  {
    RunLoopLog(v, script);
    LogTextConcat(v.rxLog, Entries(script[..LoopCount(v.exitTask, script)]));
  }

  /** The loop only gets past iteration j if no stop was requested in iterations 0 to j - 1. */
  lemma {:induction false} NoStopBefore(script: seq<Delivery>, j: nat)
    requires j < LoopCount(false, script)
    ensures j < |script|
    ensures forall i :: 0 <= i < j ==> !script[i].stopRequested
    decreases j
  {
    if j > 0 {
      assert !script[0].stopRequested;
      NoStopBefore(script[1..], j - 1);
      forall i | 0 < i < j ensures !script[i].stopRequested {
        assert script[i] == script[1..][i - 1];
      }
    }
  }

  /** Without a stop request the stop flag stays clear through the loop. */
  lemma {:induction false} RunLoopWithoutStop(v: TaskView, script: seq<Delivery>)
    requires Inv(v) && !v.exitTask
    requires Fits(|v.inbuf0|, |v.inbuf1|, script)
    requires forall i :: 0 <= i < |script| ==> !script[i].stopRequested
    ensures !RunLoop(v, script).exitTask
    decreases |script|
  {
    if script != [] {
      RunLoopUnfold(v, script);
      RunLoopWithoutStop(AfterIteration(v, script[0]), script[1..]);
    }
  }

  /**
   * Before iteration k of a loop started from buffer 0 with the stop flag
   * clear, buffer k mod 2 is current and the loop is still running.
   */
  lemma StateBeforeIteration(v: TaskView, script: seq<Delivery>, k: nat)
    requires Inv(v) && v.currentBuf == 0 && !v.exitTask
    requires Fits(|v.inbuf0|, |v.inbuf1|, script)
    requires k < LoopCount(false, script)
    ensures k < |script|
    ensures Fits(|v.inbuf0|, |v.inbuf1|, script[..k])
    ensures |script[k].samples| <= |v.inbuf0| && |script[k].samples| <= |v.inbuf1|
    ensures Inv(RunLoop(v, script[..k]))
    ensures |RunLoop(v, script[..k]).inbuf0| == |v.inbuf0| && |RunLoop(v, script[..k]).inbuf1| == |v.inbuf1|
    ensures RunLoop(v, script[..k]).currentBuf == k % 2
    ensures !RunLoop(v, script[..k]).exitTask
  {
    NoStopBefore(script, k);
    FitsSlices(|v.inbuf0|, |v.inbuf1|, script, k);
    var done := script[..k];
    assert forall i :: 0 <= i < k ==> !done[i].stopRequested;
    NoStopRunsEveryDelivery(done);
    RunLoopParity(v, done);
    RunLoopKeepsShape(v, done);
    RunLoopWithoutStop(v, done);
  }

  /**
   * Starting from buffer 0 with the stop flag clear, iteration k (counting
   * from 0) publishes buffer (k + 1) mod 2 and fills buffer k mod 2.
   */
  lemma IterationFillsKMod2(v: TaskView, script: seq<Delivery>, k: nat)
    requires Inv(v) && v.currentBuf == 0 && !v.exitTask
    requires Fits(|v.inbuf0|, |v.inbuf1|, script)
    requires k < LoopCount(false, script)
    ensures k < |script| && Fits(|v.inbuf0|, |v.inbuf1|, script[..k])
    ensures var u := RunLoop(v, script[..k]);
            && Inv(u) && u.currentBuf == k % 2 && !u.exitTask
            && |script[k].samples| <= |Buffer(u, u.currentBuf)|
            && Iterate(u, script[k].samples, script[k].md).demodBufIndex == (k + 1) % 2
            && Buffer(Iterate(u, script[k].samples, script[k].md), k % 2)
               == Fill(Buffer(u, k % 2), script[k].samples)
  {
    StateBeforeIteration(v, script, k);
  }

  /**
   * Buffers of 4 samples; three receives return 4, 2 and 4 samples with the
   * codes ok, timeout, ok and no stop request: all three iterations run, the
   * timeout notwithstanding, three records are logged with those counts, and
   * the producer index goes 0, 1, 0 and ends at 1.
   */
  lemma ThreeReceiveScenario()
    ensures var zero := Sample(0, 0);
            var v := TaskView(seq(4, _ => zero), seq(4, _ => zero), 0, 0, false, [], 0);
            var ok := Metadata(false, "", false, 0, false, false, ERROR_CODE_NONE);
            var timeout := ok.(errorCode := ERROR_CODE_TIMEOUT);
            var script := [Delivery(seq(4, _ => zero), ok, false),
                           Delivery(seq(2, _ => zero), timeout, false),
                           Delivery(seq(4, _ => zero), ok, false)];
            && Fits(4, 4, script)
            && LoopCount(false, script) == 3
            && RunLoop(v, script).currentBuf == 1
            && RunLoop(v, script).rxLog == [LogEntry(4, ok), LogEntry(2, timeout), LogEntry(4, ok)]
            && RunLoop(v, script).wakeSignals == 3
  {
    var zero := Sample(0, 0);
    var v := TaskView(seq(4, _ => zero), seq(4, _ => zero), 0, 0, false, [], 0);
    var ok := Metadata(false, "", false, 0, false, false, ERROR_CODE_NONE);
    var timeout := ok.(errorCode := ERROR_CODE_TIMEOUT);
    var script := [Delivery(seq(4, _ => zero), ok, false),
                   Delivery(seq(2, _ => zero), timeout, false),
                   Delivery(seq(4, _ => zero), ok, false)];
    assert Fits(4, 4, script[1..][1..][1..]);
    assert Fits(4, 4, script[1..][1..]);
    assert Fits(4, 4, script[1..]);
    assert Fits(4, 4, script);
    NoStopRunsEveryDelivery(script);
    RunLoopParity(v, script);
    RunLoopLog(v, script);
    assert script[..3] == script;
    assert Entries(script[1..][1..]) == [LogEntry(4, ok)] + Entries(script[1..][1..][1..]);
    assert Entries(script[1..]) == [LogEntry(2, timeout)] + Entries(script[1..][1..]);
  }
}
