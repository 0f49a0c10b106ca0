# Ping-pong sample acquisition of the E100 receiver test

This project models, in Dafny, the sample-acquisition task of a USRP E100
receiver test program, and the formatter that logs the driver's receive
metadata.

The acquisition task (`task_sampling`) runs a loop on its own thread. It
fills two sample buffers, `g_inbuf[0]` and `g_inbuf[1]`, in turn. A sample is
a pair of 16-bit signed integers (I and Q). Each iteration of the loop does
three things:

1. It publishes `current_buf ^ 1` in `demod_buf_index`, so the demodulator
   knows which buffer to process.
2. It receives at most one buffer's worth of samples into
   `g_inbuf[current_buf]` and wakes the demodulator.
3. It writes a record to `rx_log` and toggles `current_buf`.

`start()` clears the stop flag, makes buffer 0 current and creates the
thread. `stop()` sets the stop flag. `get_buffer()` is meant to return the
buffer opposite the one being filled.

The formatter `display_rx_metadata` writes one metadata record as a fixed
sequence of lines, in this order:

- `Has time spec?`
- `Seconds`, only when the record has a time stamp
- `More fragments?`
- `Fragment Offset:`
- `Start of Burst?`
- `End of Burst?`
- `Error : <label>`, only for the seven error codes its `switch` lists

Modules:

- `Samples`: the sample type.
- `StreamText`: how the output stream prints a `size_t` and a `bool`, with parsers proved to invert the printing.
- `RxMetadata`: the formatter as a function from a metadata record to lines. Its partner is a parser, and the two are proved to round-trip.
- `PingPong`: the loop as functions on a value holding the buffers, both indices, the stop flag, the log and a wake-up counter. It has one function per phase of an iteration, one for an iteration, and one for the whole loop run against a script of driver deliveries. The lemmas are about these functions.
- `SamplingTask`: the class `TaskSampling`. Its buffers are arrays written in place. Its methods are proved to change the fields exactly as the `PingPong` functions say.

The receive call belongs to the driver. The model gives its outcome as
parameters: the samples written (never more than the buffer's size, as the
driver promises) and the metadata filled in. A `stop()` from another thread
is a per-iteration flag in that script. The loop reads the stop flag only at
the top of each iteration.

`PingPong.PublishedIndexBetweenIterations` records one consequence of the
loop's order. When the receive happens, the published index is the buffer
not being written. After the toggle, however, the published index equals
`current_buf`, the buffer that the next receive will fill. It keeps that value
until the next iteration publishes again. So the index that is current when
the demodulator is woken (line 131) names the buffer filled one iteration
earlier. That buffer is the next one to be overwritten.

Some facts about the loop as written, which the model keeps:

- The loop issues no stop-streaming command when it exits.
- No error status ends the loop. Only the stop flag does.
- The raw-sample file write (line 140) is commented out.
- The task has no lifecycle state beyond the stop flag and whether its thread was created.

## Model

| member | source | states |
|---|---|---|
| Samples.SampleComponentsInRange | task_sampling.h:26-27 | both components of a sample are 16-bit signed values, in [-32768, 32767] |
| StreamText.NatText | uhd_utilities.cpp:25 | an unsigned value prints as a non-empty run of decimal digits with no leading zero |
| StreamText.NatTextRoundTrip | uhd_utilities.cpp:25 | parsing the printed fragment offset (or sample count) gives back the number printed |
| StreamText.NatTextInjective | uhd_utilities.cpp:25 | different numbers print differently |
| StreamText.BoolText | uhd_utilities.cpp:17-27 | a flag prints as a single digit whose value is 1 for true and 0 for false, as `os << bool` does without `boolalpha` |
| StreamText.BoolTextRoundTrip | uhd_utilities.cpp:17 | a flag prints as `1` or `0` and reads back as the same flag |
| StreamText.StripPrefixOfConcat | uhd_utilities.cpp:17-27 | the value after a line's fixed leading text is exactly the value printed |
| RxMetadata.ErrorLabel | uhd_utilities.cpp:29-52 | a label is printed if and only if the code is one of the seven the `switch` lists |
| RxMetadata.CodeOfLabel | uhd_utilities.cpp:31-51 | a recognised label always stands for one of the seven listed codes |
| RxMetadata.ErrorLabelDeterminesCode | uhd_utilities.cpp:31-51 | the printed label identifies the code it was printed for |
| RxMetadata.ErrorLabelInjective | uhd_utilities.cpp:29-51 | two codes with the same printed label are the same code (the seven labels are distinct) |
| RxMetadata.SecondsLines | uhd_utilities.cpp:18-23 | the seconds part is one line if and only if the record has a time stamp, and empty otherwise |
| RxMetadata.FlagLines | uhd_utilities.cpp:24-27 | the fragment and burst part is always four lines |
| RxMetadata.ErrorLines | uhd_utilities.cpp:29-52 | the error part is one line if and only if the code is one of the seven listed, and empty otherwise |
| RxMetadata.DisplayRxMetadata | uhd_utilities.cpp:14-53 | the formatter writes 5 lines plus 1 with a time stamp plus 1 for a listed code: 6 or 7 lines for the seven codes, 5 or 6 for any other |
| RxMetadata.KindOfPrefixed | uhd_utilities.cpp:17-50 | no line's fixed leading text can be mistaken for another's |
| RxMetadata.SecondsKinds | uhd_utilities.cpp:17-23 | the seconds part of the text is one seconds line with a time stamp and nothing without one |
| RxMetadata.FlagKinds | uhd_utilities.cpp:24-27 | the fragment and burst lines come in the order more-fragments, fragment-offset, start-of-burst, end-of-burst |
| RxMetadata.ErrorKinds | uhd_utilities.cpp:29-52 | the error part of the text is one error line for a listed code and nothing otherwise |
| RxMetadata.DisplayLineOrder | uhd_utilities.cpp:17-52 | lines appear as has-time-spec, [seconds], more-fragments, fragment-offset, start-of-burst, end-of-burst, [error] |
| RxMetadata.SecondsLineIffTimeSpec | uhd_utilities.cpp:17-23 | the seconds line is written if and only if `has_time_spec` is true |
| RxMetadata.ErrorLineIffListed | uhd_utilities.cpp:29-52 | an `Error :` line is written if and only if the code is listed; any other code gets none, as the `switch` has no default |
| RxMetadata.DisplayRoundTrip | uhd_utilities.cpp:17-52 | reading the text back recovers the time-stamp flag, the seconds (when present), the four fragment and burst fields unchanged, and the listed error code |
| RxMetadata.TailRoundTrip | uhd_utilities.cpp:24-52 | the fragment, burst and error lines read back as the four fields and the listed error code they print |
| RxMetadata.DisplayInjective | uhd_utilities.cpp:17-52 | two records print the same text if and only if they agree on every field the formatter shows |
| PingPong.Flip | task_sampling.cpp:125 | the other buffer index is a buffer index and differs from the given one |
| PingPong.FlipIsXorOne | task_sampling.cpp:143 | the other index is `i ^ 1`, and taking it twice gives back `i` |
| PingPong.Fill | task_sampling.cpp:128-129 | a receive keeps the buffer's capacity, puts the received samples at its start, and leaves the trailing slots as they were |
| PingPong.Publish | task_sampling.cpp:124-126 | publishing changes only `demod_buf_index`, to a buffer index different from `current_buf` |
| PingPong.Receive | task_sampling.cpp:128-131 | the receive writes only the current buffer, leaves the other buffer as it was, and sends one wake-up |
| PingPong.LogRecord | task_sampling.cpp:134-136 | a log record is a blank line, then the `Samples Received: ` line, then exactly the metadata formatter's lines |
| PingPong.LogRecordReadsBack | task_sampling.cpp:134-136 | reading a record back gives the `rx_num` that was printed and every metadata field the formatter shows |
| PingPong.LogTextAppend | task_sampling.cpp:134-136 | writing one more record appends exactly that record's text to the log |
| PingPong.LogTextConcat | task_sampling.cpp:134-136 | the log text of consecutive records is the concatenation of their texts |
| PingPong.LogAndToggle | task_sampling.cpp:134-143 | logging appends exactly one record, `current_buf` moves to the other buffer, and nothing else changes |
| PingPong.Iterate | task_sampling.cpp:123-143 | one iteration publishes the buffer not written, writes only the current buffer's received prefix, keeps both capacities, flips `current_buf`, logs one record, wakes once, and leaves the stop flag as it was whatever the error code |
| PingPong.PublishedBufferUntouchedByReceive | task_sampling.cpp:124-129 | at the receive, the published index is not the buffer being written, and the receive leaves the published buffer unchanged |
| PingPong.PublishedIndexBetweenIterations | task_sampling.cpp:125-143 | after an iteration the published index equals `current_buf`, the buffer the next receive fills |
| PingPong.StopSpec | task_sampling.h:49 | `stop()` sets the stop flag and changes nothing else |
| PingPong.StopIdempotent | task_sampling.h:49 | calling `stop()` twice has the same effect as calling it once |
| PingPong.StartSpec | task_sampling.cpp:80-81 | `start()` clears the stop flag, makes buffer 0 current and changes nothing else |
| PingPong.AfterIteration | task_sampling.cpp:121-143 | an iteration, followed by a `stop()` from another thread, keeps the indices in range and the capacities unchanged, publishes the buffer not written, fills the current buffer's received prefix and leaves the other buffer as it was, flips `current_buf`, logs one record, wakes once, and leaves the stop flag set exactly when it was set before or a stop was requested |
| PingPong.RunLoop | task_sampling.cpp:121-144 | a loop whose stop flag is already set runs no iteration and changes nothing; a loop that ends with the stop flag clear has used up every delivery |
| PingPong.LoopCountBound | task_sampling.cpp:121 | the loop never runs more iterations than there are deliveries |
| PingPong.FitsSlices | task_sampling.cpp:128-129 | when every delivery fits the buffers, each single delivery and every leading or trailing run of deliveries fits too |
| PingPong.RunLoopUnfold | task_sampling.cpp:121-144 | a running loop with a delivery pending runs exactly one iteration on it and then carries on with the rest, counting one iteration more |
| PingPong.EntriesOfPrefix | task_sampling.cpp:134-136 | the records of the first n deliveries are the first delivery's record followed by the records of the next n - 1 |
| PingPong.LoggedIsExecutedPrefix | task_sampling.cpp:121-136 | the records the loop writes, as its stop flag decides, are exactly those of the first `LoopCount` deliveries |
| PingPong.NoStopRunsEveryDelivery | task_sampling.cpp:121-144 | with no stop request, the loop runs once per delivery, whatever error codes the metadata carries |
| PingPong.StopEndsLoopAfterCurrentIteration | task_sampling.cpp:121 | a stop during iteration k ends the loop after exactly k + 1 iterations |
| PingPong.NoStopBefore | task_sampling.cpp:121 | the loop reaches iteration j only if no stop was requested before it |
| PingPong.RunLoopKeepsShape | task_sampling.cpp:118-144 | the loop keeps both indices in {0, 1} and both capacities, and never runs more iterations than deliveries |
| PingPong.RunLoopParity | task_sampling.cpp:131-143 | `current_buf` flips once per iteration, and one wake-up is sent per iteration |
| PingPong.RunLoopLogged | task_sampling.cpp:121-136 | the log after the loop is its old records followed by one record per executed iteration |
| PingPong.RunLoopLog | task_sampling.cpp:134-136 | the loop adds exactly one record per iteration to the log, in order |
| PingPong.RunLoopLogText | task_sampling.cpp:134-136 | the log after the loop is its old text followed by the records of the iterations run |
| PingPong.RunLoopWithoutStop | task_sampling.cpp:121-144 | with no stop request, the stop flag is still clear after the loop |
| PingPong.StateBeforeIteration | task_sampling.cpp:118-143 | starting from buffer 0 with the stop flag clear, before iteration k buffer k mod 2 is current, the stop flag is still clear and the capacities are unchanged |
| PingPong.IterationFillsKMod2 | task_sampling.cpp:118-143 | starting from buffer 0, iteration k publishes buffer (k + 1) mod 2 and fills buffer k mod 2 |
| PingPong.ThreeReceiveScenario | task_sampling.cpp:118-143 | with 4-sample buffers, receives of 4, 2 and 4 samples with codes ok, timeout, ok all run; they log three records with those counts and leave `current_buf` at 1 |
| SamplingTask.TaskSampling.constructor | task_sampling.cpp:20-21 | a new task has the stop flag clear, buffer 0 current and an empty log |
| SamplingTask.TaskSampling.Start | task_sampling.cpp:80-90 | `start()` clears the stop flag and makes buffer 0 current; it returns true exactly when thread creation failed |
| SamplingTask.TaskSampling.Stop | task_sampling.h:49 | the object's state after `stop()` is the `StopSpec` of its old state |
| SamplingTask.TaskSampling.GetBuffer | task_sampling.h:51 | the intended `get_buffer()` returns one of the two buffers, the one opposite `current_buf`, and never the buffer being filled |
| SamplingTask.TaskSampling.GetBufferAsWritten | task_sampling.h:51 | as written, `get_buffer()` returns no buffer |
| SamplingTask.GetBufferAsWrittenReturnsNoBuffer | task_sampling.h:51 | as written, the accessor hands out nothing, where the intended one hands out a buffer other than the one being filled |
| SamplingTask.TaskSampling.Step | task_sampling.cpp:123-143 | one loop iteration on the object, written in place into the current array, changes the state exactly as `Iterate` does, and writes no field that `Iterate` does not describe |
| SamplingTask.TaskSampling.Run | task_sampling.cpp:118-144 | `run()` sets buffer 0 current and loops while the stop flag is clear; the final state is `RunLoop` of that state, the iteration count is `LoopCount`, and the thread field is left as it was |

## Left out

- `get_rx_parameters`, `get_tx_parameters` and `get_gpio_parameters` are left out. They only query the vendor driver and print the answers, and `get_gpio_parameters` is not compiled for driver version 3.5.3.
- `get_tid()` and the thread itself are left out. These are `pthread_create`, the mutex, the condition variable and the join. The mutex-guarded publish is one atomic update. The condition-variable signal is a counter. A `stop()` from another thread is a flag on the iteration during which it happens.
- The driver calls `get_rx_stream`, `issue_stream_cmd` and `recv` are foreign. `recv`'s outcome (the samples and the metadata) is a parameter. No member takes its 5-second timeout or its one-packet argument. Their effect is folded into the delivery, which may carry any number of samples up to the buffer's size and any metadata, including a timeout code.
- The seconds value `time_spec.get_real_secs()` is floating point. The model keeps it as the text the stream prints for it.
- The numeric error-code values are those of the driver's `rx_metadata_t::error_code_t`. That header is not part of this model.
- Opening and closing the log files, `exit()` when they fail to open, and console output are I/O and are left out.
- receiver_test.cpp is plumbing and is not modelled: device setup, the command loop and the signal handler.
- The raw-sample file write is commented out in the source, so the model has none.
- `SamplingTask.TaskSampling.Run`: the model's loop also ends when the script of deliveries runs out. The source's loop would go on calling `recv`.
- `PingPong.Fits`, `PingPong.AfterIteration`, `PingPong.RunLoop` and `SamplingTask.TaskSampling.Run` require every delivery to fit both buffers. The driver only promises that a delivery fits the buffer being filled. The two agree when both buffers have the same capacity, which receiver_test.cpp sets up (10000 samples each).
- The source takes `front()` of the current buffer, which is undefined for an empty buffer. The model lets a zero-capacity buffer receive nothing.

## Findings

| source | as written | input that shows it | evidently intended | confidence | as-written member | corrected member |
|---|---|---|---|---|---|---|
| task_sampling.h:51 | `get_buffer()` evaluates `current_buf == 0 ? g_inbuf[1] : g_inbuf[0]` but has no `return`. Control reaches the end of a function that must return a reference, which is undefined behaviour. | any call, e.g. with `current_buf == 0` | return the buffer opposite `current_buf` | not executed; high (no `return` statement in the body) | SamplingTask.TaskSampling.GetBufferAsWritten | SamplingTask.TaskSampling.GetBuffer |
