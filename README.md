# RF430 measurement engine: a Dafny model

This project models the host-side measurement protocol of the NFC voltage
reader app (`MainActivity`). The app talks to an RF430-family sensor tag
through four ISO/IEC 15693 custom commands. Each command is a three-byte frame
`[0x02, opcode, 0x07]`:

- A3 reads the configuration register;
- A1 powers the sensor on;
- A2 takes one ADC sample;
- A4 powers the sensor off.

The model covers four parts of the app:

- **Hex codec** (`HexCodec`): `hexStringToByteArray` is an array-filling loop
  and `bytesToHex` is a string-building loop. Both are methods, each proved
  against a specification function (`Decoded`, `Rendered`). The round trip
  "decode the rendering with spaces removed" is proved to give the bytes back.
  The other direction is proved too: a string of hex digits, decoded and
  rendered with the spaces removed, comes back as the same string in upper
  case.
- **Gain calibration** (`GainCalibration`): the A3 response check and the
  decoding of register bits 4..3 into a gain factor of 1, 2, 4 or 8.
- **Voltage decoding** (`VoltageDecoder`): `calculateVoltageFromResponse`,
  with its sentinel `-1` for a response it does not recognise.
- **The sequencer**:
  - `Measurement` holds the pure state machine. `Press` models the
    measure-button handler and `Tick` one run of the self-re-posting
    `Runnable`. Lemmas over whole runs cover the frames sent, the samples
    plotted and when the task stops.
  - `Activity.Sequencer` is a class whose fields are the activity's fields.
    Its methods update them in place, as the Java code does. Each method is
    proved to move the fields exactly as `Press` or `Tick` says.

The transport is the `link` field: a list of outcomes, one used up per
exchange. An empty list behaves as an IOException, as when the tag leaves
the field. The handler's message queue is the count `pending` of posted
tasks. The clock reading is a parameter (`now`).

Several behaviours of the code are proved as written:

- An IOException on A2 ends the run. The task is not re-posted and A4 is not
  sent (`FailedMeasureStops`).
- A negative repeat count passes the handshake but sends no A2 and no A4. The
  sensor is left powered on (`NegativeRepeatNeverMeasures`).
- The voltage is not clamped at full scale (`Unclamped`).
- Once the count is reached, the task posts itself one more time and that
  last run does nothing (`FiniteRun`, `IdleTicks`).

A failed A2 is not retried. The code (lines 200-202) logs the failure and
does not post the task again (`FailedMeasureStops`).

## Model

| member | source | states |
|---|---|---|
| Frames.FrameInjective | rfidcommandsender/MainActivity.java:104-190 | the four command frames are pairwise distinct, so the list of frames sent identifies the commands sent |
| HexCodec.Digit | rfidcommandsender/MainActivity.java:241-242 | `Character.digit(c, 16)` over ASCII: a value in 0..15 for a hex digit, and -1 exactly when the character is not one |
| HexCodec.PairByte | rfidcommandsender/MainActivity.java:241-242 | for two hex digits, the byte is 16 times the high digit plus the low digit, high nibble first |
| HexCodec.Decoded | rfidcommandsender/MainActivity.java:237-245 | an even-length string decodes to half as many bytes, byte k coming from characters 2k and 2k+1 |
| HexCodec.HexStringToByteArray | rfidcommandsender/MainActivity.java:237-245 | the loop fills a fresh array of length len/2 whose every element is the pair byte of its two characters, i.e. `Decoded(s)` |
| HexCodec.Hex2 | rfidcommandsender/MainActivity.java:233 | `%02X` renders a byte as two upper-case hex digits that decode back to the byte |
| HexCodec.Rendered | rfidcommandsender/MainActivity.java:231-235 | the rendering of n bytes has length 0 when n is 0 and 3n-1 otherwise |
| HexCodec.BytesToHex | rfidcommandsender/MainActivity.java:231-235 | appending `"%02X "` per byte and trimming yields exactly `Rendered(bytes)` |
| HexCodec.RenderedAt | rfidcommandsender/MainActivity.java:233-234 | characters 3k and 3k+1 of the rendering are the two digits of byte k, and character 3k+2 is a space between bytes |
| HexCodec.RenderedShape | rfidcommandsender/MainActivity.java:231-235 | every character of the rendering is an upper-case hex digit, except at positions 2 mod 3, which hold a space |
| HexCodec.TrimPadded | rfidcommandsender/MainActivity.java:233-234 | `trim()` of the builder's contents (each byte followed by a space) removes exactly the final space |
| HexCodec.RoundTrip | rfidcommandsender/MainActivity.java:231-245 | with the spaces removed, `bytesToHex` output has even length and `hexStringToByteArray` gives back the original bytes |
| HexCodec.Upper | rfidcommandsender/MainActivity.java:233 | the upper-case form of a string: same length, and each `a`..`f` replaced by `A`..`F` and every other character kept |
| HexCodec.PairPrinted | rfidcommandsender/MainActivity.java:233-242 | a pair of hex digits decoded into a byte and printed back by `%02X` gives the same two digits in upper case |
| HexCodec.PairsDecoded | rfidcommandsender/MainActivity.java:231-245 | an even-length string of hex digits, decoded and printed back pair by pair, is the string in upper case |
| HexCodec.TextRoundTrip | rfidcommandsender/MainActivity.java:231-245 | the other round trip: an even-length string of hex digits decoded by `hexStringToByteArray`, rendered by `bytesToHex` and stripped of spaces is the same string in upper case |
| HexCodec.LiteralDecodes | rfidcommandsender/MainActivity.java:104-190 | each of the literals "02A307", "02A107", "02A207" and "02A407" decodes to its command's frame `[0x02, opcode, 0x07]` |
| HexCodec.CommandLiterals | rfidcommandsender/MainActivity.java:104-190 | all four command literals decode to their frames |
| GainCalibration.GainBits | rfidcommandsender/MainActivity.java:111-112 | `(reg >> 3) & 0b11` is a value in 0..3 |
| GainCalibration.ReadGain | rfidcommandsender/MainActivity.java:110-123 | the A3 response is accepted exactly when it is at least 5 bytes long and echoes 0xA3. The gain is then 2 to the power of register bits 4..3, always one of 1, 2, 4 or 8 |
| VoltageDecoder.AdcValue | rfidcommandsender/MainActivity.java:223-225 | the high byte shifted left by 8, OR the low byte, is a 16-bit value |
| VoltageDecoder.Voltage | rfidcommandsender/MainActivity.java:218-229 | the result is non-negative exactly when the response is recognised (at least 5 bytes, echoing A2 or A3), and -1 otherwise. A recognised response satisfies v x 16383 x gain = adc x 0.9 |
| VoltageDecoder.VoltageRange | rfidcommandsender/MainActivity.java:223-228 | a recognised voltage lies in [0, 65535 x 0.9 / (16383 x gain)], and is at most Vref/gain exactly when the ADC value is at most 16383 |
| VoltageDecoder.FullScale | rfidcommandsender/MainActivity.java:225-228 | ADC value 0x3FFF at gain 1 gives exactly 0.9 V |
| VoltageDecoder.Unclamped | rfidcommandsender/MainActivity.java:223-228 | an ADC value above 14 bits yields more than Vref/gain: nothing clamps the result |
| Measurement.Press | rfidcommandsender/MainActivity.java:98-142 | a blank entry means repeat 1, otherwise the parsed number. Infinite mode holds exactly when repeat is 0, the counter restarts at 0, and the gain stays one of the four values |
| Measurement.PressStarts | rfidcommandsender/MainActivity.java:104-141 | when A3 is accepted and A1 answered, the handler sends exactly A3 then A1, adopts the A3 gain, loads the A2 frame, clears the chart, takes the start time and posts the task once |
| Measurement.PressRejected | rfidcommandsender/MainActivity.java:104-128 | when A3 fails or is rejected, only A3 is sent, and the gain, command, queue and chart are unchanged |
| Measurement.PressPowerOnFails | rfidcommandsender/MainActivity.java:130-138 | when A1 raises an IOException after an accepted A3, A3 and A1 are sent, and the command, queue and chart are unchanged |
| Measurement.Tick | rfidcommandsender/MainActivity.java:155-204 | one task run leaves the settings unchanged. The counter goes up by one, and the task stays posted, exactly when the run is active and A2 is answered; otherwise the counter is unchanged and the queue shrinks by one |
| Measurement.TickStepsAgree | rfidcommandsender/MainActivity.java:157-204 | the step-by-step reading of the task body (send, record, power off) equals the declarative `Tick` |
| Measurement.TickLogging | rfidcommandsender/MainActivity.java:160-198 | a task run leaves the old log untouched and appends exactly `TickLines` of the state it ran in. Those lines contain the A2 frame exactly when the run is active and verbose, and contain an A2 response only when verbose |
| Measurement.PowerOffLinesOnlyA4 | rfidcommandsender/MainActivity.java:186-197 | the power-off block logs sending and receiving only for A4 |
| Measurement.LinesMention | rfidcommandsender/MainActivity.java:160-168 | the A2 frame is logged exactly when the run is active and verbose (repeat <= 50 or infinite), and an A2 response is logged only when verbose |
| Measurement.IdleTicks | rfidcommandsender/MainActivity.java:158-203 | once the count is reached in finite mode, task runs only drain the queue |
| Measurement.FailedMeasureStops | rfidcommandsender/MainActivity.java:200-202 | an A2 IOException sends that A2 only: no sample, no count, no re-post and no A4 |
| Measurement.CountingTick | rfidcommandsender/MainActivity.java:164-184 | an answered A2 below the count sends one A2, counts it and re-posts the task. It appends exactly `SampleOf` of the response: the voltage at the elapsed time when the response is recognised, nothing otherwise |
| Measurement.LastFiniteTick | rfidcommandsender/MainActivity.java:183-198 | the answered A2 that reaches the count is followed by exactly one A4, and the queue then drains. The samples gain exactly `SampleOf` of that A2 response |
| Measurement.FiniteRun | rfidcommandsender/MainActivity.java:158-198 | with every A2 answered, a finite run sends exactly repeat - counter A2 frames and then one A4, ends with counter == repeat and an empty queue, and plots at most one sample per A2 |
| Measurement.TicksAppend | rfidcommandsender/MainActivity.java:164-181 | task runs only append to the frames sent and to the chart |
| Measurement.FiniteBudget | rfidcommandsender/MainActivity.java:158-198 | whatever the transport does, a finite run sends at most repeat - counter A2 frames and at most one A4, sends A4 only once the count is reached, and plots at most one sample per A2 |
| Measurement.LastMeasure | rfidcommandsender/MainActivity.java:186-198 | the final A2 followed by A4 stays within the run's budget |
| Measurement.BudgetStep | rfidcommandsender/MainActivity.java:164-184 | one counted A2 followed by a run within budget stays within budget |
| Measurement.InfiniteTick | rfidcommandsender/MainActivity.java:158-184 | in infinite mode a task run sends exactly the A2 frame and keeps the gain, the mode and the command. It appends `SampleOf` of the response when A2 is answered and nothing when it fails |
| Measurement.InfiniteNeverPowersOff | rfidcommandsender/MainActivity.java:158-186 | in infinite mode every frame sent is the A2 command, so A4 is never sent, and at most one sample is plotted per run |
| Measurement.CompleteRun | rfidcommandsender/MainActivity.java:98-208 | a press with count n >= 1 and a responsive tag sends A3, A1, n A2 frames and one A4 in that order, counts n and leaves nothing posted. The chart holds exactly `RunSamples` of the n A2 responses with the gain read from A3, so exactly n points when every response is recognised |
| Measurement.AbortedRun | rfidcommandsender/MainActivity.java:104-128 | a press whose A3 fails or is rejected sends A3 alone and plots nothing, however many task runs follow |
| Measurement.NegativeRepeatNeverMeasures | rfidcommandsender/MainActivity.java:99-158 | a negative count passes the handshake (A3, A1) but no A2 or A4 is ever sent, so the sensor is left powered |
| Measurement.SampleOf | rfidcommandsender/MainActivity.java:170-181 | the `voltage >= 0` test plots the point (now - start, voltage) exactly when the decoder recognises the response, and nothing otherwise |
| Measurement.TickSample | rfidcommandsender/MainActivity.java:158-181 | a task run appends the point (now - start, decoded voltage) exactly when it is active, its A2 is answered and the response is recognised. Otherwise the chart is unchanged |
| Measurement.RunSamples | rfidcommandsender/MainActivity.java:164-184 | the points n answered A2 exchanges plot: at most n, and exactly n when every response is recognised |
| Measurement.FiniteRunSamples | rfidcommandsender/MainActivity.java:158-198 | with every A2 answered, a finite run appends exactly `RunSamples` of its responses: the k-th exchange plots its voltage at the k-th clock reading exactly when its response is recognised |
| Measurement.StartedRunSamples | rfidcommandsender/MainActivity.java:146-184 | a run started on a cleared chart ends with exactly `RunSamples` of its responses on the chart |
| Measurement.ConfigStep | rfidcommandsender/MainActivity.java:104-128 | the A3 block sends the A3 frame, uses one outcome and writes two log lines. Gain, command, queue and chart are unchanged |
| Measurement.GainStep | rfidcommandsender/MainActivity.java:110-123 | the gain becomes the A3 gain when the response is accepted and stays otherwise. Only the gain and the log change, and a valid gain stays valid |
| Measurement.PowerOnStep | rfidcommandsender/MainActivity.java:130-141 | the A1 block sends A1. When A1 is answered it loads the A2 frame, clears the chart, takes the start time and posts one task. On an IOException the command, chart and queue are unchanged |
| Measurement.StartRepeating | rfidcommandsender/MainActivity.java:145-153 | clears the chart, takes the start time and posts one task, sending nothing |
| Measurement.SendMeasureStep | rfidcommandsender/MainActivity.java:160-164 | the send half of the task hands the A2 frame to the transport and uses one outcome. Counter, queue and chart are unchanged |
| Measurement.RecordStep | rfidcommandsender/MainActivity.java:166-184 | the record half counts the exchange, re-posts the task and sends nothing. The chart gains exactly `SampleOf` the response: the point (elapsed time, voltage at the current gain) when the decoder recognises it, nothing otherwise |
| Measurement.PowerOffLines | rfidcommandsender/MainActivity.java:187-197 | the A4 block starts with the end-of-run line. It writes four lines ending in the power-off notice when A4 is answered, and three ending in the A4 failure otherwise |
| Measurement.PowerOffStep | rfidcommandsender/MainActivity.java:186-198 | the A4 block sends A4 and uses one outcome. Counter, queue, chart and gain are unchanged |
| Measurement.TickSteps | rfidcommandsender/MainActivity.java:157-204 | the task body block by block never changes repeat, the mode, the gain or the command. `TickStepsAgree` proves it equal to `Tick` |
| Measurement.FinalTick | rfidcommandsender/MainActivity.java:164-198 | the run that reaches the count sends A2 then A4, uses two outcomes, counts the exchange, stays posted and plots `SampleOf` of the A2 response |
| GainCalibration.GainOf | rfidcommandsender/MainActivity.java:113-119 | the `switch` always yields one of 1, 2, 4 or 8: two to the power of the bits for bits 0..3, and 1.0 in the default branch |
| HexCodec.HexChar | rfidcommandsender/MainActivity.java:233 | `%X` prints a nibble as an upper-case hex digit whose value is the nibble |
| HexCodec.Trim | rfidcommandsender/MainActivity.java:234 | `String.trim` is no longer than its input, and what it returns is empty or starts and ends with a character above U+0020 |
| HexCodec.TrimSlice | rfidcommandsender/MainActivity.java:234 | what `trim` returns is a contiguous slice of its input, and every character cut before or after that slice is at or below U+0020 |
| HexCodec.TrimEnd | rfidcommandsender/MainActivity.java:234 | the trailing half of `trim`: returns a prefix of the input that is empty or ends above U+0020, and everything it removes is at or below U+0020 |
| HexCodec.TrimStart | rfidcommandsender/MainActivity.java:234 | the leading half of `trim`: returns a suffix of the input that is empty or starts above U+0020, and everything it removes is at or below U+0020 |
| Activity.Sequencer.constructor | rfidcommandsender/MainActivity.java:35-43 | the field initialisers: not infinite, repeat and counter 0, gain factor 1.0, start time 0, an empty handler queue, and nothing sent, plotted or logged |
| Activity.Sequencer.AppendLog | rfidcommandsender/MainActivity.java:247-252 | appends one line to the log |
| Activity.Sequencer.SendCommand | rfidcommandsender/MainActivity.java:210-216 | one exchange: hands the frame to the transport and returns the next outcome |
| Activity.Sequencer.PrepareCommand | rfidcommandsender/MainActivity.java:104-105 | decodes a command literal to its frame and logs the frame's rendering |
| Activity.Sequencer.OnMeasureClick | rfidcommandsender/MainActivity.java:98-142 | the click handler changes the fields exactly as `Press` does and keeps the gain one of the four values |
| Activity.Sequencer.ReadConfiguration | rfidcommandsender/MainActivity.java:104-127 | the A3 block sends A3 and logs the response or the failure |
| Activity.Sequencer.ApplyGain | rfidcommandsender/MainActivity.java:110-123 | sets the gain factor and logs it when the A3 response is accepted, otherwise logs the rejection. Reports which case happened |
| Activity.Sequencer.PowerOnAndStart | rfidcommandsender/MainActivity.java:130-141 | the A1 block, then the A2 frame and the start of the task when A1 is answered |
| Activity.Sequencer.SendPowerOn | rfidcommandsender/MainActivity.java:131-133 | logs and sends the A1 frame |
| Activity.Sequencer.StartMeasuring | rfidcommandsender/MainActivity.java:134-141 | logs the A1 response, loads the A2 frame and starts the task |
| Activity.Sequencer.StartRepeatingCommand | rfidcommandsender/MainActivity.java:145-207 | clears the chart, logs the start, takes the start time and posts the task |
| Activity.Sequencer.RunCommandTask | rfidcommandsender/MainActivity.java:155-204 | one run of the `Runnable` changes the fields exactly as `Tick` does and keeps the gain valid |
| Activity.Sequencer.SendMeasure | rfidcommandsender/MainActivity.java:160-164 | logs the A2 frame when verbose and sends it |
| Activity.Sequencer.RecordResponse | rfidcommandsender/MainActivity.java:166-184 | logs the response when verbose, plots the recognised voltage at the elapsed time, counts the exchange and re-posts the task |
| Activity.Sequencer.PowerOffBlock | rfidcommandsender/MainActivity.java:186-198 | logs the end of the run, sends A4 and logs its answer or failure |
| Activity.Sequencer.LogPowerOffReply | rfidcommandsender/MainActivity.java:193-196 | logs the A4 response and the power-off notice, or the A4 failure |

## Left out

- The NFC transport (`NfcV.connect`, `transceive`, `close`) is a supplied list of outcomes. An exhausted list reads as an IOException. Timing and the contents of real responses are not modelled.
- The system clock (`System.currentTimeMillis`) is the parameter `now`. The model does not capture that the clock is read per sample and not per task.
- `elapsedMs` is a Java `float` and the voltage a `double`. The model uses exact integers and reals, so rounding is not modelled.
- Chart rendering, the voltage label, CSV export, the clear-log button, tag discovery in `onNewIntent` and the layout are UI and are left out. Plotted points are the `samples` list.
- Log messages are abstracted to `Line` constructors that keep the command and the hex payload. The Polish text and the IOException messages are left out.
- `appendLog` posts to the UI thread. The model appends in program order and does not model interleaving with the UI thread.
- Java's `int counter` wraps after 2^31 increments. `State.counter` is unbounded. Only an endless run gets that far, and both guards (lines 158 and 186) test `infinite` first, so no observable behaviour depends on the wrap.
- `Integer.parseInt` failure (a NumberFormatException on non-numeric text) is not modelled: `RepeatEntry` holds only blank or a valid `int`.
- The `currentTag != null` check (line 141) is left out. A null tag makes `sendCommand` fail earlier with a NullPointerException, which the handler does not catch, and the model has no tag object.
- HexCodec.Digit: models `Character.digit` over ASCII only. The non-ASCII Unicode digits Java also accepts are not modelled.
- HexCodec.HexStringToByteArray: requires an even-length string. On odd-length input the Java loop reads past the end and throws, and that exception is not modelled. Non-hex characters are not an error in the source and follow the source's arithmetic.
- VoltageDecoder.AdcValue: states the shift-or as `256 * high + low`. For bytes 0..255 these are the same, but the equivalence at bit level is not proved.
- GainCalibration.GainBits: states the shift and mask as `(reg / 8) % 4`. For non-negative values these are the same, but the equivalence at bit level is not proved.
- Activity.Sequencer.RunCommandTask: a second button press during a live run posts a second task, as in the source. Interleaving of the two tasks is modelled only through the shared `pending` count, not as two separate runnables.
