/** The player as the host drives it: static variables updated by MmxReplayBegin and
    MmxReplayEnd. Each call is the transition of the same name in module Player. */
module Playback {
  import opened Bytes
  import opened ReplayLog
  import opened Machine
  import P = Player

  class Session<S> {
    const tape: P.Tape<S>
    var pos: nat
    var checkpointed: bool
    var rows: nat
    var nextFrame: nat
    var pending: bool
    var finished: bool
    var failed: bool
    var timing: bool
    var now: S
    var word: nat
    var settings: Settings

    ghost function Contents(): P.State<S>
      reads this
    {
      P.State(pos, checkpointed, rows, nextFrame, pending, finished, failed, timing, now, word, settings)
    }

    /** MmxReplayPlayback, once the header is accepted. */
    constructor (tape: P.Tape<S>, s: S, timing: bool)
      ensures this.tape == tape && Contents() == P.Start(s, timing)
    {
      this.tape := tape;
      pos, checkpointed, rows, nextFrame := 0, false, 0, 0;
      pending, finished, failed := false, false, false;
      now, word, this.timing := s, 0, timing;
      settings := Settings(false, false, false, false, 256);
    }

    method Error()
      modifies this`failed, this`pending
      ensures Contents() == P.Fail(old(Contents()))
    {
      failed := true;
      pending := false;
    }

    /** The checkpoint half of playback_begin. */
    method LoadCheckpoint()
      requires pos < |tape.log| && tape.log[pos].Checkpoint?
      modifies this
      ensures Contents() == P.Restore(tape, old(Contents()))
    {
      var bytes := P.CheckpointBytes(tape.log[pos], tape.blob);
      if bytes == None {
        Error();
        return;
      }
      var loaded := tape.machine.load(bytes.value);
      if loaded.None? {
        Error();
        return;
      }
      now := loaded.value;
      if pos + 1 == |tape.log| {
        Error();
        return;
      }
      pos := pos + 1;
      checkpointed := true;
    }

    /** The input half of playback_begin. */
    method TakeInput()
      requires pos < |tape.log|
      modifies this
      ensures Contents() == P.TakeInput(tape, old(Contents()))
    {
      var line := tape.log[pos];
      if !checkpointed || !line.Input? || !FlagsLegal(line.flags) ||
         !WidthLegal(tape.extraMax, line.width) || line.peer != 0 {
        Error();
        return;
      }
      if line.frame != tape.machine.frame(now) {
        Error();
        return;
      }
      settings := Decode(line.flags, line.width);
      if settings.timing {
        timing := true;
      }
      if settings.timing != timing {
        Error();
        return;
      }
      nextFrame := NextFrame(line.frame);
      pending := true;
      word := line.word;
      pos := pos + 1;
    }

    /** MmxReplayBegin: tells the host whether to execute a frame. */
    method Begin() returns (go: bool)
      modifies this
      ensures Contents() == P.Begin(tape, old(Contents()))
      ensures go == !P.Stopped(Contents())
    {
      if finished || failed {
        return false;
      }
      if pos >= |tape.log| {
        if rows == 0 {
          Error();
        } else {
          finished := true;
          pending := false;
        }
        return false;
      }
      if tape.log[pos].Checkpoint? {
        LoadCheckpoint();
        if failed {
          return false;
        }
      }
      TakeInput();
      go := !finished && !failed;
    }

    /** The host runs one frame on the emulated machine. */
    method Execute()
      modifies this`now
      ensures Contents() == P.Execute(tape, old(Contents()))
    {
      now := tape.machine.step(now, word, settings);
    }

    /** MmxReplayEnd: compares the digests of the executed frame. */
    method End()
      modifies this
      ensures Contents() == P.End(tape, old(Contents()))
    {
      if !pending || failed || finished {
        return;
      }
      pending := false;
      var wram, cgram, oam, vram := Hashes(tape.machine, now);
      if pos >= |tape.log| || !tape.log[pos].Result? || tape.log[pos].after != nextFrame {
        Error();
        return;
      }
      var expected := tape.log[pos];
      pos := pos + 1;
      if tape.machine.frame(now) != nextFrame || wram != expected.wram || cgram != expected.cgram ||
         oam != expected.oam || vram != expected.vram {
        Error();
      } else {
        rows := rows + 1;
        finished := pos == |tape.log|;
      }
    }
  }
}
