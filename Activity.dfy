/** The activity's measurement engine as the source writes it: fields that
    the button handler and the command task update in place, with each
    handler proved to move the fields exactly as the state machine of module
    Measurement says. The transport, the handler's queue, the chart and the
    log are fields too, so that every effect of a handler is visible in its
    postcondition. */
module Activity {
  import opened Frames
  import opened HexCodec
  import opened GainCalibration
  import opened VoltageDecoder
  import opened Measurement

  class Sequencer {
    var repeat: int
    var infinite: bool
    var counter: int
    var gainFactor: real
    var command: seq<byte>
    var startTimeMillis: int
    /** Command tasks posted to the handler and not yet run. */
    var pending: nat
    /** The outcomes the transport will yield, in order. */
    var link: seq<Outcome>
    /** Every frame handed to the transport, in order. */
    var sent: seq<seq<byte>>
    /** The points of the voltage chart. */
    var samples: seq<Sample>
    var log: seq<Line>

    ghost function Snapshot(): State
      reads this
    {
      State(repeat, infinite, counter, gainFactor, command, pending, startTimeMillis,
            link, sent, samples, log)
    }

    /** The gain factor is always one of the four values the switch yields. */
    ghost predicate Valid()
      reads this
    {
      IsGain(gainFactor)
    }

    constructor (link: seq<Outcome>)
      ensures Valid() && Snapshot() == Initial(link)
    {
      repeat, infinite, counter, gainFactor := 0, false, 0, 1.0;
      command, startTimeMillis, pending := [], 0, 0;
      this.link, sent, samples, log := link, [], [], [];
    }

    /** `appendLog`. */
    method AppendLog(line: Line)
      modifies this`log
      ensures log == old(log) + [line]
    {
      log := log + [line];
    }

    /** `sendCommand`: one connect, transceive and close with the tag. */
    method SendCommand(frame: seq<byte>) returns (reply: Outcome)
      modifies this`link, this`sent
      ensures reply == Next(old(link)) && link == Rest(old(link))
      ensures sent == old(sent) + [frame]
    {
      reply := Next(link);
      link := Rest(link);
      sent := sent + [frame];
    }

    /** Decodes a command literal into its frame and logs it as sent. */
    method PrepareCommand(c: Cmd) returns (frame: seq<byte>)
      modifies this`log
      ensures frame == Frame(c)
      ensures log == old(log) + [Sending(c, Rendered(Frame(c)))]
    {
      var bytes := HexStringToByteArray(CommandLiteral(c));
      CommandLiterals();
      frame := bytes[..];
      var hex := BytesToHex(frame);
      AppendLog(Sending(c, hex));
    }

    /** The measure-button listener. */
    method OnMeasureClick(entry: RepeatEntry, now: int)
      requires Valid()
      modifies this
      ensures Valid() && Snapshot() == Press(old(Snapshot()), entry, now)
    {
      ghost var s := Snapshot();
      repeat := if entry.Blank? then 1 else entry.n as int;
      infinite := repeat == 0;
      counter := 0;
      ghost var s0 := Snapshot();
      var configReply := ReadConfiguration();
      if configReply.IOError? {
        return;
      }
      ghost var s1 := Snapshot();
      var accepted := ApplyGain(configReply.response);
      if !accepted {
        return;
      }
      ghost var s2 := Snapshot();
      assert Press(s, entry, now) == PowerOnStep(s2, now);
      PowerOnAndStart(now);
    }

    /** The A3 block: send the configuration read and log the answer. */
    method ReadConfiguration() returns (reply: Outcome)
      modifies this`log, this`link, this`sent
      ensures reply == Next(old(link))
      ensures Snapshot() == ConfigStep(old(Snapshot()))
    {
      var configCommand := PrepareCommand(ConfigRead);
      reply := SendCommand(configCommand);
      if reply.IOError? {
        AppendLog(SendFailed(ConfigRead));
      } else {
        var hex := BytesToHex(reply.response);
        AppendLog(Received(ConfigRead, hex));
      }
    }

    /** Reads the gain bits of an A3 response into the gain factor. */
    method ApplyGain(response: seq<byte>) returns (accepted: bool)
      modifies this`log, this`gainFactor
      ensures accepted <==> ReadGain(response).Accepted?
      ensures Snapshot() == GainStep(old(Snapshot()), response)
    {
      match ReadGain(response)
      case Rejected =>
        AppendLog(ConfigRejected);
        accepted := false;
      case Accepted(g) =>
        gainFactor := g;
        AppendLog(GainRead(gainFactor.Floor));
        accepted := true;
    }

    /** The A1 block and the start of the repeating task. */
    method PowerOnAndStart(now: int)
      modifies this
      ensures Snapshot() == PowerOnStep(old(Snapshot()), now)
    {
      var a1Reply := SendPowerOn();
      if a1Reply.IOError? {
        AppendLog(SendFailed(PowerOn));
        return;
      }
      StartMeasuring(a1Reply.response, now);
    }

    /** Sends power-on, logging the frame first. */
    method SendPowerOn() returns (reply: Outcome)
      modifies this`log, this`link, this`sent
      ensures reply == Next(old(link))
      ensures Snapshot() == Exchange(Logged(old(Snapshot()), [Sending(PowerOn, Rendered(Frame(PowerOn)))]), Frame(PowerOn))
    {
      var a1Command := PrepareCommand(PowerOn);
      reply := SendCommand(a1Command);
    }

    /** After an answered A1: logs the answer, loads the A2 frame and starts
        the repeating task. */
    method StartMeasuring(response: seq<byte>, now: int)
      modifies this`log, this`command, this`samples, this`startTimeMillis, this`pending
      ensures Snapshot() ==
        StartRepeating(Logged(old(Snapshot()), [Received(PowerOn, Rendered(response))]).(command := Frame(Measure)), now)
    {
      var hex := BytesToHex(response);
      AppendLog(Received(PowerOn, hex));
      var measureCommand := HexStringToByteArray(CommandLiteral(Measure));
      CommandLiterals();
      command := measureCommand[..];
      StartRepeatingCommand(now);
    }

    /** `startRepeatingCommand`: clears the chart, takes the start time and
        posts the command task. */
    method StartRepeatingCommand(now: int)
      modifies this`samples, this`log, this`startTimeMillis, this`pending
      ensures Snapshot() == StartRepeating(old(Snapshot()), now)
    {
      samples := [];
      AppendLog(MeasurementStarted);
      startTimeMillis := now;
      pending := pending + 1;
    }

    /** One run of the command task; `now` is the clock reading taken when
        a sample is plotted. */
    method RunCommandTask(now: int)
      requires Valid() && pending > 0
      modifies this
      ensures Valid() && Snapshot() == Tick(old(Snapshot()), now)
    {
      ghost var s := Snapshot();
      TickStepsAgree(s, now);
      pending := pending - 1;
      if !(infinite || counter < repeat) {
        return;
      }
      var reply := SendMeasure();
      if reply.IOError? {
        AppendLog(SendFailed(Measure));
        return;
      }
      RecordResponse(reply.response, now);
      if !infinite && counter >= repeat {
        PowerOffBlock();
      }
    }

    /** The send half of the task's `try` block. */
    method SendMeasure() returns (reply: Outcome)
      modifies this`log, this`link, this`sent
      ensures reply == Next(old(link))
      ensures Snapshot() == SendMeasureStep(old(Snapshot()))
    {
      if repeat <= 50 || infinite {
        var hex := BytesToHex(command);
        AppendLog(Sending(Measure, hex));
      }
      reply := SendCommand(command);
    }

    /** The half after a response: log it when verbose, plot its voltage when
        the decoder recognises it, count it and post the task again. */
    method RecordResponse(response: seq<byte>, now: int)
      requires Valid()
      modifies this`log, this`samples, this`counter, this`pending
      ensures Snapshot() == RecordStep(old(Snapshot()), response, now)
    {
      ghost var s := Snapshot();
      ghost var added := SampleOf(s.gain, s.startTime, response, now);
      if repeat <= 50 || infinite {
        var hex := BytesToHex(response);
        AppendLog(Received(Measure, hex));
      }
      var voltage := Voltage(response, gainFactor);
      if voltage >= 0.0 {
        samples := samples + [Sample(now - startTimeMillis, voltage)];
      }
      assert samples == s.samples + added;
      counter := counter + 1;
      pending := pending + 1;
    }

    /** The A4 block. */
    method PowerOffBlock()
      modifies this`log, this`link, this`sent
      ensures Snapshot() == PowerOffStep(old(Snapshot()))
    {
      ghost var s := Snapshot();
      AppendLog(MeasurementDone);
      var a4Command := PrepareCommand(PowerOff);
      var a4Reply := SendCommand(a4Command);
      ghost var lines := PowerOffLines(a4Reply);
      assert log == s.log + lines[..2];
      LogPowerOffReply(a4Reply);
      assert lines == lines[..2] + lines[2..];
      assert log == s.log + lines;
    }

    /** The end of the A4 block: the answer and the power-off notice, or the
        failure. */
    method LogPowerOffReply(reply: Outcome)
      modifies this`log
      ensures log == old(log) + PowerOffLines(reply)[2..]
    {
      if reply.IOError? {
        AppendLog(SendFailed(PowerOff));
      } else {
        var hex := BytesToHex(reply.response);
        AppendLog(Received(PowerOff, hex));
        AppendLog(PoweredOff);
      }
    }
  }
}
