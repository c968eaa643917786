/** The measurement sequencer as a state machine over the activity's fields
    `repeat`, `infinite`, `counter`, `gainFactor`, `command` and
    `startTimeMillis`, together with the handler's queue of posted tasks,
    the transport, and what the run produces: the frames sent, the samples
    plotted and the log lines written.

    `Press` is the measure-button handler; `Tick` is one run of the
    self-re-posting `Runnable`. Both are total: the transport is a supplied
    list of outcomes, and once the list is used up every further exchange
    fails as an IOException would when the tag has gone out of range. */
module Measurement {
  import opened Frames
  import opened HexCodec
  import opened GainCalibration
  import opened VoltageDecoder

  /** A value of Java's `int`. */
  type int32 = x: int | -0x8000_0000 <= x < 0x8000_0000

  /** The trimmed text of the repeat-count field: empty, or a number that
      `Integer.parseInt` accepts. */
  datatype RepeatEntry = Blank | Number(n: int32)

  /** A point of the voltage chart: milliseconds since the run started and
      the voltage. */
  datatype Sample = Sample(elapsedMs: int, voltage: real)

  /** The log lines of the engine; hex payloads are `bytesToHex` renderings. */
  datatype Line =
    | Sending(cmd: Cmd, hex: string)
    | Received(cmd: Cmd, hex: string)
    | GainRead(gain: int)
    | ConfigRejected
    | SendFailed(cmd: Cmd)
    | MeasurementStarted
    | MeasurementDone
    | PoweredOff

  /** `pending` counts the command tasks posted to the handler and not yet
      run; `link` holds the outcomes the transport will yield, in order. */
  datatype State = State(
    repeat: int,
    infinite: bool,
    counter: int,
    gain: real,
    command: seq<byte>,
    pending: nat,
    startTime: int,
    link: seq<Outcome>,
    sent: seq<seq<byte>>,
    samples: seq<Sample>,
    log: seq<Line>)

  /** The activity before the first press: unit gain, nothing posted. */
  function Initial(link: seq<Outcome>): State
  {
    State(0, false, 0, 1.0, [], 0, 0, link, [], [], [])
  }

  predicate ValidGain(s: State)
  {
    IsGain(s.gain)
  }

  /** The outcome of the next exchange. */
  function Next(link: seq<Outcome>): Outcome
  {
    if link == [] then IOError else link[0]
  }

  function Rest(link: seq<Outcome>): seq<Outcome>
  {
    if link == [] then [] else link[1..]
  }

  /** `sendCommand`: hands a frame to the transport and consumes one outcome. */
  function Exchange(s: State, frame: seq<byte>): State
  {
    s.(link := Rest(s.link), sent := s.sent + [frame])
  }

  function Logged(s: State, lines: seq<Line>): State
  {
    s.(log := s.log + lines)
  }

  /** The A3 exchange yields a response that the handler accepts. */
  predicate ConfigOk(link: seq<Outcome>)
  {
    Next(link).Ok? && ConfigAccepted(Next(link).response)
  }

  /** The next n exchanges all succeed. */
  predicate AllOk(link: seq<Outcome>, n: int)
  {
    n <= |link| && forall i :: 0 <= i < n ==> link[i].Ok?
  }

  /** The whole startup handshake succeeds: A3 accepted, then A1 answered. */
  predicate StartupOk(link: seq<Outcome>)
  {
    ConfigOk(link) && Next(Rest(link)).Ok?
  }

  // ---------------------------------------------------------------- startup

  /** The measure-button handler: sets the repeat count, sends A3 and reads
      the gain, sends A1, and on success starts the repeating task. A failed
      or rejected A3, or a failed A1, returns with nothing more sent. */
  function Press(s: State, entry: RepeatEntry, now: int): (r: State)
    ensures r.repeat == (if entry.Blank? then 1 else entry.n)
    ensures r.infinite <==> r.repeat == 0
    ensures r.counter == 0
    ensures ValidGain(s) ==> ValidGain(r)
  {
    var repeat := if entry.Blank? then 1 else entry.n as int;
    var s0 := s.(repeat := repeat, infinite := repeat == 0, counter := 0);
    var reply := Next(s0.link);
    var s1 := ConfigStep(s0);
    if reply.IOError? then s1
    else
      var s2 := GainStep(s1, reply.response);
      if ReadGain(reply.response).Rejected? then s2 else PowerOnStep(s2, now)
  }

  /** A startup whose A3 is accepted and whose A1 is answered sends both
      frames, takes the gain from the A3 response, loads the A2 frame,
      clears the chart, takes the start time and posts the task once. */
  lemma PressStarts(s: State, entry: RepeatEntry, now: int)
    requires StartupOk(s.link)
    ensures var r := Press(s, entry, now);
      && r.sent == s.sent + [Frame(ConfigRead), Frame(PowerOn)]
      && r.link == Rest(Rest(s.link))
      && r.gain == ReadGain(Next(s.link).response).gain
      && r.command == Frame(Measure)
      && r.pending == s.pending + 1
      && r.samples == []
      && r.startTime == now
  {
    var repeat := if entry.Blank? then 1 else entry.n as int;
    var s1 := ConfigStep(s.(repeat := repeat, infinite := repeat == 0, counter := 0));
    var s2 := GainStep(s1, Next(s.link).response);
    assert Press(s, entry, now) == PowerOnStep(s2, now);
    assert s2.link == Rest(s.link);
  }

  /** A failed or rejected A3 exchange ends the handler: only A3 is sent, and
      gain, command, queue and chart are untouched. */
  lemma PressRejected(s: State, entry: RepeatEntry, now: int)
    requires !ConfigOk(s.link)
    ensures var r := Press(s, entry, now);
      && r.sent == s.sent + [Frame(ConfigRead)]
      && r.link == Rest(s.link)
      && r.gain == s.gain
      && r.command == s.command
      && r.pending == s.pending
      && r.samples == s.samples
  {
    var reply := Next(s.link);
    if reply.Ok? {
      assert ReadGain(reply.response).Rejected?;
    }
  }

  /** An accepted A3 followed by a failed A1 sends both frames but starts no
      task. */
  lemma PressPowerOnFails(s: State, entry: RepeatEntry, now: int)
    requires ConfigOk(s.link) && !StartupOk(s.link)
    ensures var r := Press(s, entry, now);
      && r.sent == s.sent + [Frame(ConfigRead), Frame(PowerOn)]
      && r.link == Rest(Rest(s.link))
      && r.command == s.command
      && r.pending == s.pending
      && r.samples == s.samples
  {
    var repeat := if entry.Blank? then 1 else entry.n as int;
    var s1 := ConfigStep(s.(repeat := repeat, infinite := repeat == 0, counter := 0));
    var s2 := GainStep(s1, Next(s.link).response);
    assert Press(s, entry, now) == PowerOnStep(s2, now);
    assert Next(s2.link).IOError?;
  }

  /** The A3 block of the handler: send the configuration read and log the
      answer, or the IOException. */
  function ConfigStep(s: State): (r: State)
    ensures r == s.(log := r.log, link := Rest(s.link), sent := s.sent + [Frame(ConfigRead)])
    ensures |r.log| == |s.log| + 2 && r.log[..|s.log|] == s.log
  {
    var reply := Next(s.link);
    Logged(Exchange(Logged(s, [Sending(ConfigRead, Rendered(Frame(ConfigRead)))]), Frame(ConfigRead)),
           if reply.IOError? then [SendFailed(ConfigRead)] else [Received(ConfigRead, Rendered(reply.response))])
  }

  /** The handler's reading of the A3 response: a rejection is logged, an
      accepted response sets the gain factor. */
  function GainStep(s: State, response: seq<byte>): (r: State)
    ensures r == s.(gain := r.gain, log := r.log)
    ensures r.gain == if ReadGain(response).Accepted? then ReadGain(response).gain else s.gain
    ensures ValidGain(s) ==> ValidGain(r)
  {
    match ReadGain(response)
    case Rejected => Logged(s, [ConfigRejected])
    case Accepted(g) => Logged(s.(gain := g), [GainRead(g.Floor)])
  }

  /** The A1 block of the handler: send power-on, log the answer unread,
      then start the repeating task; an IOException returns early. */
  function PowerOnStep(s: State, now: int): (r: State)
    ensures r.sent == s.sent + [Frame(PowerOn)] && r.link == Rest(s.link) && r.gain == s.gain
    ensures r.pending == s.pending + (if Next(s.link).Ok? then 1 else 0)
    ensures Next(s.link).Ok? ==> r.command == Frame(Measure) && r.samples == [] && r.startTime == now
    ensures Next(s.link).IOError? ==> r.command == s.command && r.samples == s.samples
  {
    var s0 := Logged(s, [Sending(PowerOn, Rendered(Frame(PowerOn)))]);
    var reply := Next(s0.link);
    var s1 := Exchange(s0, Frame(PowerOn));
    if reply.IOError? then
      Logged(s1, [SendFailed(PowerOn)])
    else
      StartRepeating(Logged(s1, [Received(PowerOn, Rendered(reply.response))]).(command := Frame(Measure)), now)
  }

  /** `startRepeatingCommand`: the chart is cleared, the start time taken
      and the task posted once. */
  function StartRepeating(s: State, now: int): (r: State)
    ensures r.samples == [] && r.startTime == now && r.pending == s.pending + 1
    ensures r.sent == s.sent && r.link == s.link && r.gain == s.gain && r.command == s.command
  {
    Logged(s.(samples := []), [MeasurementStarted]).(startTime := now, pending := s.pending + 1)
  }

  // ------------------------------------------------------------ the loop

  /** The guard of the task: infinite mode, or fewer than `repeat` counted. */
  predicate Active(s: State)
  {
    s.infinite || s.counter < s.repeat
  }

  /** Send and response lines of A2 are written only for short or endless runs. */
  predicate Verbose(s: State)
  {
    s.repeat <= 50 || s.infinite
  }

  /** The samples a successful A2 exchange adds under the `voltage >= 0`
      test: the point (elapsed time, voltage) exactly when the decoder
      recognises the response, nothing otherwise. */
  function SampleOf(gain: real, start: int, response: seq<byte>, now: int): (r: seq<Sample>)
    requires gain > 0.0
    ensures r == if Recognised(response) then [Sample(now - start, Voltage(response, gain))] else []
  {
    var v := Voltage(response, gain);
    if v >= 0.0 then [Sample(now - start, v)] else []
  }

  /** A successful A2 exchange in finite mode that reaches the count. */
  predicate PowerOffDue(s: State)
  {
    !s.infinite && s.counter + 1 >= s.repeat
  }

  /** One run of the command task, taken off the handler's queue. An active
      tick sends the A2 command; on success it plots the sample, counts the
      exchange, posts itself again and, in finite mode once the count is
      reached, sends A4. An IOException of A2 skips all of that. */
  function Tick(s: State, now: int): (r: State)
    requires s.pending > 0 && s.gain > 0.0
    ensures r.repeat == s.repeat && r.infinite == s.infinite && r.gain == s.gain
    ensures r.command == s.command && r.startTime == s.startTime
    ensures r.counter == s.counter + 1 <==> Active(s) && Next(s.link).Ok?
    ensures r.counter != s.counter + 1 ==> r.counter == s.counter
    ensures r.pending == s.pending <==> Active(s) && Next(s.link).Ok?
    ensures r.pending != s.pending ==> r.pending == s.pending - 1
  {
    var idle := s.(pending := s.pending - 1);
    if !Active(s) then
      idle
    else
      var reply := Next(s.link);
      var logged := idle.(log := s.log + TickLines(s));
      if reply.IOError? then
        logged.(link := Rest(s.link), sent := s.sent + [s.command])
      else if PowerOffDue(s) then
        logged.(counter := s.counter + 1, pending := s.pending,
                samples := s.samples + SampleOf(s.gain, s.startTime, reply.response, now),
                link := Rest(Rest(s.link)), sent := s.sent + [s.command, Frame(PowerOff)])
      else
        logged.(counter := s.counter + 1, pending := s.pending,
                samples := s.samples + SampleOf(s.gain, s.startTime, reply.response, now),
                link := Rest(s.link), sent := s.sent + [s.command])
  }

  /** The sample a task run plots: only an active run whose A2 is answered
      with a recognised response plots one, at the elapsed time since the
      start and with the decoded voltage. */
  lemma TickSample(s: State, now: int)
    requires s.pending > 0 && s.gain > 0.0
    ensures var reply := Next(s.link);
      Tick(s, now).samples == s.samples +
        if Active(s) && reply.Ok? && Recognised(reply.response)
        then [Sample(now - s.startTime, Voltage(reply.response, s.gain))]
        else []
  {
  }

  /** The lines the A4 block writes, given the outcome of the A4 exchange. */
  function PowerOffLines(reply: Outcome): (lines: seq<Line>)
    ensures |lines| == (if reply.Ok? then 4 else 3) && lines[0] == MeasurementDone
    ensures lines[|lines| - 1] == if reply.Ok? then PoweredOff else SendFailed(PowerOff)
  {
    [MeasurementDone, Sending(PowerOff, Rendered(Frame(PowerOff)))]
      + if reply.IOError? then [SendFailed(PowerOff)] else [Received(PowerOff, Rendered(reply.response)), PoweredOff]
  }

  /** The log lines one tick writes, in the order the task writes them. */
  function TickLines(s: State): seq<Line>
  {
    if !Active(s) then []
    else
      var send := if Verbose(s) then [Sending(Measure, Rendered(s.command))] else [];
      var reply := Next(s.link);
      if reply.IOError? then send + [SendFailed(Measure)]
      else
        send + (if Verbose(s) then [Received(Measure, Rendered(reply.response))] else [])
          + if PowerOffDue(s) then PowerOffLines(Next(Rest(s.link))) else []
  }

  // ------------------------------------------- the task, block by block

  /** The first half of the task's `try` block: the A2 frame is logged when
      the run is verbose and handed to the transport. */
  function SendMeasureStep(s: State): (r: State)
    ensures r.sent == s.sent + [s.command] && r.link == Rest(s.link)
    ensures r.counter == s.counter && r.pending == s.pending && r.samples == s.samples
  {
    Exchange(Logged(s, if Verbose(s) then [Sending(Measure, Rendered(s.command))] else []), s.command)
  }

  /** The second half, after a response: logged when verbose, plotted when
      recognised, counted, and the task posted again. */
  function RecordStep(s: State, response: seq<byte>, now: int): (r: State)
    requires s.gain > 0.0
    ensures r.sent == s.sent && r.link == s.link && r.gain == s.gain
    ensures r.counter == s.counter + 1 && r.pending == s.pending + 1
    ensures |s.samples| <= |r.samples| <= |s.samples| + 1
    ensures r.samples == s.samples + SampleOf(s.gain, s.startTime, response, now)
  {
    Logged(s, if Verbose(s) then [Received(Measure, Rendered(response))] else []).(
      samples := s.samples + SampleOf(s.gain, s.startTime, response, now),
      counter := s.counter + 1,
      pending := s.pending + 1)
  }

  /** The A4 block: the end of the run is logged and power-off sent; an
      IOException is only logged. */
  function PowerOffStep(s: State): (r: State)
    ensures r.sent == s.sent + [Frame(PowerOff)] && r.link == Rest(s.link)
    ensures r.counter == s.counter && r.pending == s.pending && r.samples == s.samples && r.gain == s.gain
  {
    Logged(Exchange(s, Frame(PowerOff)), PowerOffLines(Next(s.link)))
  }

  /** The task as the source writes it, block after block. */
  function TickSteps(s: State, now: int): (r: State)
    requires s.pending > 0 && s.gain > 0.0
    ensures r.repeat == s.repeat && r.infinite == s.infinite && r.gain == s.gain && r.command == s.command
  {
    var idle := s.(pending := s.pending - 1);
    if !Active(idle) then idle
    else
      var reply := Next(idle.link);
      var sent := SendMeasureStep(idle);
      if reply.IOError? then Logged(sent, [SendFailed(Measure)])
      else
        var recorded := RecordStep(sent, reply.response, now);
        if !recorded.infinite && recorded.counter >= recorded.repeat then PowerOffStep(recorded)
        else recorded
  }

  /** The block-by-block task and the declarative `Tick` agree on every
      state. */
  lemma TickStepsAgree(s: State, now: int)
    requires s.pending > 0 && s.gain > 0.0
    ensures TickSteps(s, now) == Tick(s, now)
  {
    if Active(s) {
      if Next(s.link).IOError? {
        FailedTickAgrees(s, now);
      } else {
        AnsweredTickAgrees(s, now);
      }
    }
  }

  lemma FailedTickAgrees(s: State, now: int)
    requires s.pending > 0 && s.gain > 0.0 && Active(s) && Next(s.link).IOError?
    ensures TickSteps(s, now) == Tick(s, now)
  {
    var send := if Verbose(s) then [Sending(Measure, Rendered(s.command))] else [];
    var t := SendMeasureStep(s.(pending := s.pending - 1));
    assert t.log == s.log + send;
    assert TickLines(s) == send + [SendFailed(Measure)];
  }

  /** The logged, plotted and counted state after an answered A2 exchange. */
  lemma RecordedState(s: State, now: int)
    requires s.pending > 0 && s.gain > 0.0 && Active(s) && Next(s.link).Ok?
    ensures var response := Next(s.link).response;
      var u := RecordStep(SendMeasureStep(s.(pending := s.pending - 1)), response, now);
      && u == s.(log := u.log, samples := s.samples + SampleOf(s.gain, s.startTime, response, now),
                 counter := s.counter + 1, link := Rest(s.link), sent := s.sent + [s.command])
      && u.log == s.log + ((if Verbose(s) then [Sending(Measure, Rendered(s.command))] else [])
                         + (if Verbose(s) then [Received(Measure, Rendered(response))] else []))
  {
  }

  lemma AnsweredTickAgrees(s: State, now: int)
    requires s.pending > 0 && s.gain > 0.0 && Active(s) && Next(s.link).Ok?
    ensures TickSteps(s, now) == Tick(s, now)
  {
    RecordedState(s, now);
    if PowerOffDue(s) {
      FinalTickAgrees(s, now);
    } else {
      var response := Next(s.link).response;
      var send := if Verbose(s) then [Sending(Measure, Rendered(s.command))] else [];
      var recv := if Verbose(s) then [Received(Measure, Rendered(response))] else [];
      assert TickLines(s) == send + recv + [];
    }
  }

  lemma FinalTickAgrees(s: State, now: int)
    requires s.pending > 0 && s.gain > 0.0 && Active(s) && Next(s.link).Ok? && PowerOffDue(s)
    ensures TickSteps(s, now) == Tick(s, now)
  {
    var response := Next(s.link).response;
    var u := RecordStep(SendMeasureStep(s.(pending := s.pending - 1)), response, now);
    var r := s.(log := s.log + TickLines(s), counter := s.counter + 1,
                samples := s.samples + SampleOf(s.gain, s.startTime, response, now),
                link := Rest(Rest(s.link)), sent := s.sent + [s.command, Frame(PowerOff)]);
    assert TickSteps(s, now) == PowerOffStep(u);
    assert PowerOffStep(u) == r by {
      RecordedState(s, now);
      var send := if Verbose(s) then [Sending(Measure, Rendered(s.command))] else [];
      var recv := if Verbose(s) then [Received(Measure, Rendered(response))] else [];
      var lines := PowerOffLines(Next(Rest(s.link)));
      assert TickLines(s) == (send + recv) + lines;
      AppendAssociates(s.log, send + recv, lines);
      AppendAssociates(s.sent, [s.command], [Frame(PowerOff)]);
      assert PowerOffStep(u).log == r.log;
      assert PowerOffStep(u).sent == r.sent;
    }
    FinalTick(s, now);
  }

  /** The state after the tick that sends A4, read off `Tick`. */
  lemma FinalTick(s: State, now: int)
    requires s.pending > 0 && s.gain > 0.0 && Active(s) && Next(s.link).Ok? && PowerOffDue(s)
    ensures Tick(s, now) == s.(log := s.log + TickLines(s), counter := s.counter + 1,
                               samples := s.samples + SampleOf(s.gain, s.startTime, Next(s.link).response, now),
                               link := Rest(Rest(s.link)), sent := s.sent + [s.command, Frame(PowerOff)])
  {
  }

  /** The A2 send line appears in a tick's log exactly when the tick is
      active and verbose, and an A2 response line only when it is verbose. */
  lemma TickLogging(s: State, now: int)
    requires s.pending > 0 && s.gain > 0.0
    ensures Tick(s, now).log == s.log + TickLines(s)
    ensures |Tick(s, now).log| >= |s.log|
    ensures var added := Tick(s, now).log[|s.log|..];
      && (Sending(Measure, Rendered(s.command)) in added <==> Active(s) && Verbose(s))
      && (forall h :: Received(Measure, h) in added ==> Verbose(s))
  {
    var lines := TickLines(s);
    assert Tick(s, now).log[|s.log|..] == lines;
    LinesMention(s);
  }

  /** The A4 block writes no line about the A2 command. */
  lemma PowerOffLinesOnlyA4(reply: Outcome)
    ensures forall l :: l in PowerOffLines(reply) ==> !l.Sending? || l.cmd == PowerOff
    ensures forall l :: l in PowerOffLines(reply) ==> !l.Received? || l.cmd == PowerOff
  {
    var lines := PowerOffLines(reply);
    if reply.IOError? {
      assert lines == [MeasurementDone, Sending(PowerOff, Rendered(Frame(PowerOff))), SendFailed(PowerOff)];
    } else {
      assert lines == [MeasurementDone, Sending(PowerOff, Rendered(Frame(PowerOff))),
                       Received(PowerOff, Rendered(reply.response)), PoweredOff];
    }
  }

  lemma LinesMention(s: State)
    ensures Sending(Measure, Rendered(s.command)) in TickLines(s) <==> Active(s) && Verbose(s)
    ensures forall h :: Received(Measure, h) in TickLines(s) ==> Verbose(s)
  {
    if Active(s) {
      var send := if Verbose(s) then [Sending(Measure, Rendered(s.command))] else [];
      var reply := Next(s.link);
      if reply.Ok? {
        var recv := if Verbose(s) then [Received(Measure, Rendered(reply.response))] else [];
        var off := if PowerOffDue(s) then PowerOffLines(Next(Rest(s.link))) else [];
        assert TickLines(s) == send + recv + off;
        PowerOffLinesOnlyA4(Next(Rest(s.link)));
      }
    }
  }

  /** The handler runs queued tasks one at a time until the queue is empty
      or the clock readings run out; `times[i]` is the clock reading of the
      i-th run. */
  function Ticks(s: State, times: seq<int>): (r: State)
    requires s.gain > 0.0
    ensures r.gain == s.gain && r.repeat == s.repeat && r.infinite == s.infinite
    ensures r.command == s.command
    decreases |times|
  {
    if times == [] || s.pending == 0 then s else Ticks(Tick(s, times[0]), times[1..])
  }

  /** `n` copies of a frame. */
  function Copies(f: seq<byte>, n: nat): (r: seq<seq<byte>>)
    ensures |r| == n && forall i :: 0 <= i < n ==> r[i] == f
  {
    if n == 0 then [] else [f] + Copies(f, n - 1)
  }

  /** How many times a frame occurs in a list of sent frames. */
  function Occurrences(fs: seq<seq<byte>>, f: seq<byte>): nat
    decreases |fs|
  {
    if fs == [] then 0 else (if fs[0] == f then 1 else 0) + Occurrences(fs[1..], f)
  }

  lemma {:induction false} OccurrencesAppend(a: seq<seq<byte>>, b: seq<seq<byte>>, f: seq<byte>)
    ensures Occurrences(a + b, f) == Occurrences(a, f) + Occurrences(b, f)
    decreases |a|
  {
    if a == [] {
      assert a + b == b;
    } else {
      assert (a + b)[1..] == a[1..] + b;
      OccurrencesAppend(a[1..], b, f);
    }
  }

  /** Once the count is reached in finite mode, queued tasks only drain. */
  lemma {:induction false} IdleTicks(s: State, times: seq<int>)
    requires s.gain > 0.0 && !s.infinite && s.counter >= s.repeat
    ensures Ticks(s, times) == s.(pending := if |times| >= s.pending then 0 else s.pending - |times|)
    decreases |times|
  {
    if times != [] && s.pending > 0 {
      IdleTicks(Tick(s, times[0]), times[1..]);
    }
  }

  /** A failed A2 exchange in the only queued task ends the loop: no
      further A2, no A4, no count, and the queue is empty. */
  lemma FailedMeasureStops(s: State, times: seq<int>)
    requires s.gain > 0.0 && s.pending == 1 && Active(s)
    requires Next(s.link).IOError? && times != []
    ensures var r := Ticks(s, times);
      && r.sent == s.sent + [s.command]
      && r.counter == s.counter
      && r.pending == 0
      && r.samples == s.samples
  {
    var t := Tick(s, times[0]);
    assert t.pending == 0;
    assert Ticks(s, times) == Ticks(t, times[1..]) == t;
  }

  /** A measurement of a finite run before the last one: A2 is sent and
      answered, the count goes up and the task is posted again. */
  lemma CountingTick(s: State, now: int)
    requires s.gain > 0.0 && s.pending == 1 && !s.infinite && s.counter + 1 < s.repeat
    requires s.link != [] && s.link[0].Ok?
    ensures var t := Tick(s, now);
      && t.link == s.link[1..] && t.sent == s.sent + [s.command]
      && t.counter == s.counter + 1 && t.pending == 1
      && |s.samples| <= |t.samples| <= |s.samples| + 1
      && t.samples[..|s.samples|] == s.samples
      && t.samples == s.samples + SampleOf(s.gain, s.startTime, s.link[0].response, now)
  {
  }

  /** The last measurement of a finite run: A2 and then A4 are sent and the
      task is not posted again. */
  lemma LastFiniteTick(s: State, times: seq<int>)
    requires s.gain > 0.0 && s.pending == 1 && !s.infinite && s.counter + 1 == s.repeat
    requires |times| > 1 && AllOk(s.link, 1)
    ensures var r := Ticks(s, times);
      && r.sent == s.sent + Copies(s.command, 1) + [Frame(PowerOff)]
      && r.counter == s.repeat
      && r.pending == 0
      && |s.samples| <= |r.samples| <= |s.samples| + 1
      && r.samples[..|s.samples|] == s.samples
      && r.samples == s.samples + SampleOf(s.gain, s.startTime, s.link[0].response, times[0])
  {
    var t := Tick(s, times[0]);
    assert Next(s.link) == s.link[0];
    assert Ticks(s, times) == Ticks(t, times[1..]);
    IdleTicks(t, times[1..]);
    assert Copies(s.command, 1) == [s.command];
  }

  /** The samples that n answered A2 exchanges plot when the k-th response
      is the k-th outcome of `link` and its clock reading is `times[k]`. Each
      exchange adds at most one sample, and exactly one when its response is
      recognised. */
  function RunSamples(gain: real, start: int, link: seq<Outcome>, times: seq<int>, n: nat): (r: seq<Sample>)
    requires gain > 0.0 && n <= |times| && AllOk(link, n)
    ensures |r| <= n
    ensures (forall i :: 0 <= i < n ==> Recognised(link[i].response)) ==> |r| == n
    decreases n
  {
    if n == 0 then []
    else
      assert forall i :: 0 <= i < n - 1 ==> link[1..][i] == link[i + 1];
      SampleOf(gain, start, link[0].response, times[0]) + RunSamples(gain, start, link[1..], times[1..], n - 1)
  }

  /** When every A2 exchange succeeds, a finite run with one queued task
      sends the A2 command exactly as many times as the count still allows,
      then A4 exactly once, emits at most one sample per exchange, and leaves
      the queue empty. */
  lemma {:induction false} FiniteRun(s: State, times: seq<int>)
    requires s.gain > 0.0 && s.pending == 1 && !s.infinite && 0 <= s.counter < s.repeat
    requires |times| > s.repeat - s.counter
    requires AllOk(s.link, s.repeat - s.counter)
    ensures var r := Ticks(s, times);
      && r.sent == s.sent + Copies(s.command, s.repeat - s.counter) + [Frame(PowerOff)]
      && r.counter == s.repeat
      && r.pending == 0
      && |s.samples| <= |r.samples| <= |s.samples| + (s.repeat - s.counter)
      && r.samples[..|s.samples|] == s.samples
    decreases s.repeat - s.counter
  {
    if s.counter + 1 == s.repeat {
      LastFiniteTick(s, times);
    } else {
      var t := Tick(s, times[0]);
      CountingTick(s, times[0]);
      assert Ticks(s, times) == Ticks(t, times[1..]);
      assert AllOk(t.link, t.repeat - t.counter);
      FiniteRun(t, times[1..]);
      var r := Ticks(t, times[1..]);
      assert Copies(s.command, s.repeat - s.counter)
          == [s.command] + Copies(s.command, t.repeat - t.counter);
      assert r.samples[..|s.samples|] == r.samples[..|t.samples|][..|s.samples|];
    }
  }

  /** Which samples a finite run plots when every A2 exchange succeeds: the
      k-th exchange plots its voltage at clock reading `times[k]` exactly
      when its response is recognised. */
  lemma {:induction false} FiniteRunSamples(s: State, times: seq<int>)
    requires s.gain > 0.0 && s.pending == 1 && !s.infinite && 0 <= s.counter < s.repeat
    requires |times| > s.repeat - s.counter
    requires AllOk(s.link, s.repeat - s.counter)
    ensures Ticks(s, times).samples == s.samples + RunSamples(s.gain, s.startTime, s.link, times, s.repeat - s.counter)
    decreases s.repeat - s.counter
  {
    var head := SampleOf(s.gain, s.startTime, s.link[0].response, times[0]);
    if s.counter + 1 == s.repeat {
      LastFiniteTick(s, times);
      assert RunSamples(s.gain, s.startTime, s.link, times, s.repeat - s.counter) == head + [];
      assert head + [] == head;
    } else {
      var t := Tick(s, times[0]);
      CountingTick(s, times[0]);
      assert Ticks(s, times) == Ticks(t, times[1..]);
      assert AllOk(t.link, t.repeat - t.counter);
      FiniteRunSamples(t, times[1..]);
      assert t.gain == s.gain && t.startTime == s.startTime && t.link == s.link[1..];
      assert t.repeat - t.counter == s.repeat - s.counter - 1;
      var rest := RunSamples(s.gain, s.startTime, s.link[1..], times[1..], s.repeat - s.counter - 1);
      assert Ticks(t, times[1..]).samples == t.samples + rest;
      assert t.samples == s.samples + head;
      assert RunSamples(s.gain, s.startTime, s.link, times, s.repeat - s.counter) == head + rest;
      AppendAssociates(s.samples, head, rest);
    }
  }

  lemma AppendAssociates<T>(a: seq<T>, b: seq<T>, c: seq<T>)
    ensures (a + b) + c == a + (b + c)
  {
  }

  /** Running tasks only appends to the frames sent and the samples. */
  lemma {:induction false} TicksAppend(s: State, times: seq<int>)
    requires s.gain > 0.0
    ensures var r := Ticks(s, times);
      && |r.sent| >= |s.sent| && r.sent[..|s.sent|] == s.sent
      && |r.samples| >= |s.samples| && r.samples[..|s.samples|] == s.samples
    decreases |times|
  {
    if times != [] && s.pending > 0 {
      var t := Tick(s, times[0]);
      TicksAppend(t, times[1..]);
      var r := Ticks(t, times[1..]);
      assert r.sent[..|s.sent|] == r.sent[..|t.sent|][..|s.sent|];
      assert r.samples[..|s.samples|] == r.samples[..|t.samples|][..|s.samples|];
    }
  }

  /** Whatever the transport does, a finite run with at most one queued task
      sends the A2 command at most as often as the count still allows, only
      A2 and A4 frames, A4 at most once and only once the count is reached,
      and emits at most one sample per A2 sent. */
  lemma {:induction false} FiniteBudget(s: State, times: seq<int>)
    requires s.gain > 0.0 && s.pending <= 1 && !s.infinite
    requires s.command != Frame(PowerOff)
    ensures |Ticks(s, times).sent| >= |s.sent|
    ensures Budgeted(s, Ticks(s, times))
    decreases |times|
  {
    TicksAppend(s, times);
    var r := Ticks(s, times);
    if times == [] || s.pending == 0 || !Active(s) {
      if !Active(s) {
        IdleTicks(s, times);
      }
      assert r.sent[|s.sent|..] == [];
    } else {
      var t := Tick(s, times[0]);
      assert r == Ticks(t, times[1..]);
      if Next(s.link).IOError? {
        assert r == t;
        assert r.sent[|s.sent|..] == [s.command];
      } else if t.counter >= t.repeat {
        IdleTicks(t, times[1..]);
        LastMeasure(s, t);
      } else {
        FiniteBudget(t, times[1..]);
        TicksAppend(t, times[1..]);
        BudgetStep(s, t, r);
      }
    }
  }

  /** The bound FiniteBudget states, of the state r reached from s. */
  ghost predicate Budgeted(s: State, r: State)
    requires |r.sent| >= |s.sent|
  {
    var added := r.sent[|s.sent|..];
    && Occurrences(added, s.command) <= (if s.counter < s.repeat then s.repeat - s.counter else 0)
    && Occurrences(added, Frame(PowerOff)) <= 1
    && (Occurrences(added, Frame(PowerOff)) == 1 ==> r.counter >= r.repeat)
    && |added| == Occurrences(added, s.command) + Occurrences(added, Frame(PowerOff))
    && |s.samples| <= |r.samples| <= |s.samples| + Occurrences(added, s.command)
  }

  lemma LastMeasure(s: State, t: State)
    requires !s.infinite && s.counter < s.repeat && s.command != Frame(PowerOff)
    requires t.sent == s.sent + [s.command, Frame(PowerOff)] && t.counter >= t.repeat
    requires |s.samples| <= |t.samples| <= |s.samples| + 1
    ensures Budgeted(s, t)
  {
    var a := Frame(PowerOff);
    assert t.sent[|s.sent|..] == [s.command, a];
    assert [s.command, a][1..] == [a];
    var one: seq<seq<byte>> := [a];
    assert one[1..] == [] && one[0] == a;
    assert Occurrences(one[1..], a) == 0 && Occurrences(one[1..], s.command) == 0;
    assert Occurrences(one, a) == 1 + Occurrences(one[1..], a);
    assert Occurrences(one, s.command) == 0 + Occurrences(one[1..], s.command);
    assert Occurrences([s.command, a], s.command) == 1;
    assert Occurrences([s.command, a], a) == 1;
  }

  lemma BudgetStep(s: State, t: State, r: State)
    requires s.counter < s.repeat && t.counter == s.counter + 1 && t.repeat == s.repeat
    requires t.command == s.command && s.command != Frame(PowerOff)
    requires t.sent == s.sent + [s.command] && |r.sent| >= |t.sent| && r.sent[..|t.sent|] == t.sent
    requires Budgeted(t, r)
    requires |s.samples| <= |t.samples| <= |s.samples| + 1
    ensures |r.sent| >= |s.sent| && Budgeted(s, r)
  {
    var a := Frame(PowerOff);
    var rest := r.sent[|t.sent|..];
    assert r.sent[|s.sent|..] == [s.command] + rest;
    OccurrencesAppend([s.command], rest, s.command);
    OccurrencesAppend([s.command], rest, a);
  }

  /** In infinite mode nothing but the A2 command is ever sent, so A4 never
      is, and at most one sample is emitted per tick. */
  lemma {:induction false} InfiniteNeverPowersOff(s: State, times: seq<int>)
    requires s.gain > 0.0 && s.infinite
    ensures var r := Ticks(s, times);
      && |r.sent| >= |s.sent| && r.sent[..|s.sent|] == s.sent
      && (forall i :: |s.sent| <= i < |r.sent| ==> r.sent[i] == s.command)
      && |r.samples| <= |s.samples| + |times|
    decreases |times|
  {
    if times != [] && s.pending > 0 {
      var t := Tick(s, times[0]);
      InfiniteTick(s, times[0]);
      assert t.gain == s.gain && t.infinite && t.command == s.command;
      assert t.sent == s.sent + [s.command];
      InfiniteNeverPowersOff(t, times[1..]);
      var r := Ticks(t, times[1..]);
      assert r == Ticks(s, times);
      assert r.sent[..|s.sent|] == r.sent[..|t.sent|][..|s.sent|];
      forall i | |s.sent| <= i < |r.sent|
        ensures r.sent[i] == s.command
      {
        if i == |s.sent| {
          assert r.sent[i] == r.sent[..|t.sent|][i] == t.sent[i];
        }
      }
    }
  }

  /** One tick in infinite mode sends the A2 frame and nothing else, and
      plots at most one sample. */
  lemma InfiniteTick(s: State, now: int)
    requires s.gain > 0.0 && s.infinite && s.pending > 0
    ensures Tick(s, now).sent == s.sent + [s.command]
    ensures var t := Tick(s, now); t.gain == s.gain && t.infinite && t.command == s.command
    ensures |Tick(s, now).samples| <= |s.samples| + 1
    ensures Tick(s, now).samples == s.samples +
      if Next(s.link).Ok? then SampleOf(s.gain, s.startTime, Next(s.link).response, now) else []
  {
  }

  /** A run of n measurements started from an idle activity, every exchange
      succeeding: A3, A1, then n times A2, then A4 once; at most n samples. */
  lemma CompleteRun(s: State, n: int32, now: int, times: seq<int>)
    requires ValidGain(s) && s.pending == 0 && n >= 1
    requires StartupOk(s.link)
    requires AllOk(Rest(Rest(s.link)), n)
    requires |times| > n
    ensures var r := Ticks(Press(s, Number(n), now), times);
      && r.sent == s.sent + [Frame(ConfigRead), Frame(PowerOn)] + Copies(Frame(Measure), n) + [Frame(PowerOff)]
      && |r.samples| <= n
      && r.counter == n
      && r.pending == 0
      && r.samples == RunSamples(ReadGain(Next(s.link).response).gain, now, Rest(Rest(s.link)), times, n)
      && ((forall i :: 0 <= i < n ==> Recognised(Rest(Rest(s.link))[i].response)) ==> |r.samples| == n)
  {
    var p := Press(s, Number(n), now);
    PressStarts(s, Number(n), now);
    var gain := ReadGain(Next(s.link).response).gain;
    assert p.pending == 1 && p.counter == 0 && p.repeat == n && !p.infinite;
    assert p.gain == gain && p.startTime == now && p.samples == [];
    StartedRun(p, times, s.sent + [Frame(ConfigRead), Frame(PowerOn)], Rest(Rest(s.link)), n);
    StartedRunSamples(p, times, gain, now, Rest(Rest(s.link)), n);
  }

  /** `FiniteRun` for a run that the handler has just started, with the
      frames already sent, the transport and the count named. */
  lemma StartedRun(p: State, times: seq<int>, sent: seq<seq<byte>>, link: seq<Outcome>, n: nat)
    requires p.sent == sent && p.link == link && p.command == Frame(Measure)
    requires p.gain > 0.0 && p.pending == 1 && !p.infinite && p.counter == 0 && p.repeat == n > 0
    requires |times| > n && AllOk(link, n)
    ensures var r := Ticks(p, times);
      && r.sent == sent + Copies(Frame(Measure), n) + [Frame(PowerOff)]
      && r.counter == n && r.pending == 0 && |r.samples| <= |p.samples| + n
  {
    FiniteRun(p, times);
  }

  /** `FiniteRunSamples` for a run that starts from a cleared chart, with the
      gain, start time, transport and count named. */
  lemma StartedRunSamples(p: State, times: seq<int>, gain: real, start: int, link: seq<Outcome>, n: nat)
    requires p.gain == gain && p.startTime == start && p.link == link && p.samples == []
    requires gain > 0.0 && p.pending == 1 && !p.infinite && p.counter == 0 && p.repeat == n > 0
    requires |times| > n && AllOk(link, n)
    ensures Ticks(p, times).samples == RunSamples(gain, start, link, times, n)
  {
    FiniteRunSamples(p, times);
    assert [] + RunSamples(gain, start, link, times, n) == RunSamples(gain, start, link, times, n);
  }

  /** A run whose A3 exchange fails or is rejected sends nothing after A3,
      starts no task and leaves the plotted samples as they were. */
  lemma AbortedRun(s: State, entry: RepeatEntry, now: int, times: seq<int>)
    requires ValidGain(s) && s.pending == 0 && !ConfigOk(s.link)
    ensures var r := Ticks(Press(s, entry, now), times);
      && r.sent == s.sent + [Frame(ConfigRead)]
      && r.samples == s.samples
      && r.pending == 0
  {
    PressRejected(s, entry, now);
  }

  /** A negative repeat count passes the startup handshake but makes the
      task's guard false from the start: no A2 is sent, and neither is A4, so
      the tag is left powered. */
  lemma NegativeRepeatNeverMeasures(s: State, n: int32, now: int, times: seq<int>)
    requires ValidGain(s) && s.pending == 0 && n < 0
    requires StartupOk(s.link) && times != []
    ensures var r := Ticks(Press(s, Number(n), now), times);
      && r.sent == s.sent + [Frame(ConfigRead), Frame(PowerOn)]
      && r.counter == 0
      && r.pending == 0
  {
    var p := Press(s, Number(n), now);
    PressStarts(s, Number(n), now);
    IdleTicks(p, times);
  }
}
