/**
 * The sampling task object `task_sampling` together with the shared state
 * it works on: the ping-pong buffers `g_inbuf[0]` and `g_inbuf[1]` (arrays
 * allocated by the owner of the task, written in place), the index published
 * to the demodulator, the producer index, the stop flag and the metadata log.
 * Each method is proved to change the fields as the matching function of
 * PingPong says, so every lemma proved there holds of the object.
 */
module SamplingTask {
  import opened Samples
  import opened RxMetadata
  import opened PingPong

  /** What a C++ function returns; `FellOffEnd` when control reaches its closing brace without a `return`. */
  datatype Returned<T> = Value(value: T) | FellOffEnd

  class TaskSampling {
    /** `g_inbuf[0]` and `g_inbuf[1]`: two distinct buffers whose capacities never change. */
    const inbuf0: array<Sample>
    const inbuf1: array<Sample>
    /** `demod_buf_index`: the buffer the demodulator must process. */
    var demodBufIndex: int
    /** `current_buf`: the buffer the task fills next. */
    var currentBuf: int
    /** `exit_task`: set to stop the acquisition loop. */
    var exitTask: bool
    /** The records written to `rx_log`; `LogText(rxLog)` is the file's text. */
    var rxLog: seq<LogEntry>
    /** How many times `in_available` was signalled. */
    var wakeSignals: nat
    /** Whether `start()` created the worker thread. */
    var threadCreated: bool

    ghost predicate Valid()
      reads this
    {
      inbuf0 != inbuf1 && 0 <= currentBuf <= 1 && 0 <= demodBufIndex <= 1
    }

    /** The abstract state that the PingPong functions act on. */
    ghost function View(): (v: TaskView)
      reads this, inbuf0, inbuf1
      ensures |v.inbuf0| == inbuf0.Length && |v.inbuf1| == inbuf1.Length
    {
      TaskView(inbuf0[..], inbuf1[..], demodBufIndex, currentBuf, exitTask, rxLog, wakeSignals)
    }

    /** The buffer array with index `i`. */
    function Buf(i: int): (a: array<Sample>)
      reads this
      requires 0 <= i <= 1
      ensures a == (if i == 0 then inbuf0 else inbuf1)
    {
      if i == 0 then inbuf0 else inbuf1
    }

    /**
     * The constructor (line 21 of task_sampling.cpp): the stop flag clear,
     * buffer 0 current, an empty log. `demod_buf_index` is a global with
     * static storage and so starts at zero.
     */
    constructor (buf0: array<Sample>, buf1: array<Sample>)
      requires buf0 != buf1
      ensures Valid()
      ensures inbuf0 == buf0 && inbuf1 == buf1
      ensures View() == TaskView(buf0[..], buf1[..], 0, 0, false, [], 0)
      ensures !threadCreated
    {
      inbuf0, inbuf1 := buf0, buf1;
      demodBufIndex := 0;
      currentBuf := 0;
      exitTask := false;
      rxLog := [];
      wakeSignals := 0;
      threadCreated := false;
    }

    /**
     * `start()`: resets the stop flag and the producer index before it asks
     * for the thread, and returns true exactly when the thread could not be
     * created. Whether thread creation fails is decided outside the program
     * and is the parameter `creationFails`.
     */
    method Start(creationFails: bool) returns (failed: bool)
      requires Valid()
      modifies this
      ensures Valid()
      ensures View() == StartSpec(old(View()))
      ensures failed == creationFails
      ensures threadCreated == !creationFails
    {
      exitTask := false;
      currentBuf := 0;
      threadCreated := !creationFails;
      failed := creationFails;
    }

    /** `stop()`: sets the stop flag and changes nothing else. */
    method Stop()
      requires Valid()
      modifies this`exitTask
      ensures Valid()
      ensures View() == StopSpec(old(View()))
    {
      exitTask := true;
    }

    /** `get_buffer()` as intended: the buffer opposite the one being filled. */
    function GetBuffer(): (b: array<Sample>)
      reads this
      requires Valid()
      ensures b == inbuf0 || b == inbuf1
      ensures b != Buf(currentBuf)
      ensures b == Buf(Flip(currentBuf))
    {
      if currentBuf == 0 then inbuf1 else inbuf0
    }

    /**
     * `get_buffer()` as written: the conditional expression is evaluated and
     * its value discarded, and control reaches the end of a function that
     * must return a reference.
     */
    function GetBufferAsWritten(): (r: Returned<array<Sample>>)
      reads this
      requires Valid()
      ensures !r.Value?
    {
      var _ := if currentBuf == 0 then inbuf1 else inbuf0;
      FellOffEnd
    }

    /**
     * One iteration of the loop of `run()` (lines 124-143). `samples` is what
     * `recv` wrote into the current buffer (at most its size, as the driver
     * promises) and `md` the metadata it filled in.
     */
    method Step(samples: seq<Sample>, md: Metadata)
      requires Valid()
      requires |samples| <= Buf(currentBuf).Length
      modifies this`demodBufIndex, this`currentBuf, this`rxLog, this`wakeSignals, inbuf0, inbuf1
      ensures Valid()
      ensures View() == Iterate(old(View()), samples, md)
      ensures threadCreated == old(threadCreated)
    {
      // publish the other buffer (the mutex-guarded assignment, one atomic update)
      demodBufIndex := Flip(currentBuf);
      // receive into the current buffer
      var buf := Buf(currentBuf);
      forall i | 0 <= i < |samples| {
        buf[i] := samples[i];
      }
      assert buf[..] == Fill(old(buf[..]), samples);
      wakeSignals := wakeSignals + 1;
      // log the receive and move to the other buffer
      rxLog := rxLog + [LogEntry(|samples|, md)];
      currentBuf := Flip(currentBuf);
    }

    /**
     * `run()` from line 118: buffer 0 becomes current, then the loop runs
     * while the stop flag is clear. `script` lists what the driver delivers
     * on each receive and whether `stop()` was called during that iteration;
     * the model's run also ends when the script does.
     */
    method Run(script: seq<Delivery>) returns (iterations: nat)
      requires Valid()
      requires Fits(inbuf0.Length, inbuf1.Length, script)
      modifies this`demodBufIndex, this`currentBuf, this`exitTask, this`rxLog, this`wakeSignals, inbuf0, inbuf1
      ensures Valid()
      ensures View() == RunLoop(old(View()).(currentBuf := 0), script)
      ensures iterations == LoopCount(old(exitTask), script)
      ensures threadCreated == old(threadCreated)
    {
      currentBuf := 0;
      ghost var start := View();
      var k := 0;
      assert script[0..] == script;
      while !exitTask && k < |script|
        invariant Valid()
        invariant 0 <= k <= |script|
        invariant Inv(View())
        invariant Fits(inbuf0.Length, inbuf1.Length, script[k..])
        invariant RunLoop(View(), script[k..]) == RunLoop(start, script)
        invariant k + LoopCount(exitTask, script[k..]) == LoopCount(start.exitTask, script)
      {
        ghost var before := View();
        assert script[k..][0] == script[k] && script[k..][1..] == script[k + 1..];
        FitsSlices(inbuf0.Length, inbuf1.Length, script, k);
        Step(script[k].samples, script[k].md);
        if script[k].stopRequested {
          Stop();
        }
        assert View() == AfterIteration(before, script[k]);
        k := k + 1;
      }
      iterations := k;
    }
  }

  /** As written, `get_buffer()` hands its caller no buffer, where the intended one is never the buffer being filled. */
  lemma GetBufferAsWrittenReturnsNoBuffer(t: TaskSampling)
    requires t.Valid()
    ensures t.GetBufferAsWritten() == FellOffEnd
    ensures t.GetBuffer() != t.Buf(t.currentBuf)
  {
  }
}
