/** The recorder as the host drives it: the static variables of src/mmx_replay.c, with the ring of
    sizes as the fixed array it is and eviction as the loops it is. Each call is the transition of
    the same name in module Recorder. */
module Recording {
  import opened Bytes
  import opened HistoryRing
  import opened ReplayLog
  import opened Machine
  import R = Recorder

  class Recording {
    const config: R.Config
    var enabled: bool
    var recording: bool
    var pending: bool
    var failed: bool
    var rows: nat
    var nextFrame: nat
    var generation: nat
    var loads: nat
    var recordedLoads: nat
    var oldest: nat
    var segment: nat
    const sizes: array<nat>
    var bytes: nat
    var current: nat
    var logs: map<nat, seq<Line>>
    var blobs: map<nat, seq<Byte>>

    ghost predicate Valid()
      reads this, sizes
    {
      sizes.Length == SEGMENTS && bytes == Sum(sizes[..])
    }

    ghost function Contents(): R.State
      reads this, sizes
    {
      R.State(enabled, recording, pending, failed, rows, nextFrame, generation, loads, recordedLoads,
              Ring(oldest, segment, sizes[..], bytes, current), logs, blobs)
    }

    constructor (config: R.Config, enabled: bool)
      ensures this.config == config && Valid() && fresh(sizes)
      ensures Contents() == R.Initial(enabled)
    {
      this.config := config;
      this.enabled := enabled;
      recording, pending, failed := false, false, false;
      rows, nextFrame, generation, loads, recordedLoads := 0, 0, 0, 0, 0;
      oldest, segment, bytes, current := 1, 0, 0, 0;
      sizes := new nat[SEGMENTS](_ => 0);
      logs, blobs := map[], map[];
      new;
      assert sizes[..] == seq(SEGMENTS, _ => 0);
      SumOfZeros(sizes[..]);
    }

    /** error() */
    method Error()
      modifies this`failed, this`pending, this`recording
      ensures Contents() == R.Fail(old(Contents()))
    {
      failed := true;
      pending := false;
      recording := false;
    }

    /** MmxReplayClose */
    method Close(closeOk: bool)
      modifies this`failed, this`pending, this`recording, this`rows
      ensures Contents() == R.Close(old(Contents()), closeOk)
    {
      if recording {
        if !closeOk {
          failed := true;
        }
        recording := false;
      }
      pending := false;
      rows := 0;
    }

    /** MmxReplayEnable */
    method Enable(on: bool, closeOk: bool)
      modifies this`enabled, this`failed, this`pending, this`recording, this`rows
      ensures Contents() == R.Enable(old(Contents()), on, closeOk)
    {
      if on && !enabled {
        failed := false;
      }
      enabled := on;
      if !on {
        Close(closeOk);
      }
    }

    /** MmxReplayStateLoaded */
    method StateLoaded()
      modifies this`loads
      ensures Contents() == R.StateLoaded(old(Contents()))
    {
      loads := loads + 1;
    }

    method Append(line: Line)
      modifies this`logs
      ensures Contents() == R.Append(old(Contents()), line)
    {
      logs := logs[segment := (if segment in logs then logs[segment] else []) + [line]];
    }

    /** evict_segment */
    method Evict(stuck: map<nat, nat>)
      requires Valid()
      modifies this, sizes
      ensures Valid() && Contents() == R.Evict(old(Contents()), stuck)
    {
      if oldest in stuck && stuck[oldest] < 5 {
        if stuck[oldest] > 0 {
          logs := logs - {oldest};
        }
        if stuck[oldest] > 1 {
          blobs := blobs - {oldest};
        }
        Error();
        return;
      }
      logs := logs - {oldest};
      blobs := blobs - {oldest};
      Forget();
    }

    /** The oldest segment is taken off the books. */
    method Forget()
      requires Valid()
      modifies this`bytes, this`oldest, sizes
      ensures Valid()
      ensures Contents() == old(Contents()).(ring := Evicted(old(Contents()).ring))
    {
      var slot := Slot(oldest);
      SlotWithinTotal(Ring(oldest, segment, sizes[..], bytes, current), oldest);
      SumUpdate(sizes[..], slot, 0);
      bytes := bytes - sizes[slot];
      ghost var before := sizes[..];
      sizes[slot] := 0;
      assert sizes[..] == before[slot := 0];
      oldest := oldest + 1;
    }

    /** The eviction loop of start_segment. */
    method EvictForWindow(stuck: map<nat, nat>)
      requires Valid() && !failed
      modifies this, sizes
      ensures Valid() && Contents() == R.EvictForWindow(old(Contents()), stuck)
    {
      while segment - oldest >= SEGMENTS
        invariant Valid() && !failed
        invariant R.EvictForWindow(Contents(), stuck) == R.EvictForWindow(old(Contents()), stuck)
        decreases segment - oldest
      {
        Evict(stuck);
        if failed {
          return;
        }
      }
    }

    /** The last part of start_segment. */
    method OpenFiles(frame: nat, env: R.Env)
      modifies this`current, this`nextFrame, this`generation, this`failed, this`pending, this`recording, this`logs, this`blobs
      ensures Contents() == R.OpenFiles(old(Contents()), frame, env)
    {
      current := 0;
      nextFrame := frame;
      generation := env.generation;
      if !env.beginOk {
        Error();
        return;
      }
      recording := true;
      logs := logs[segment := []];
      blobs := blobs[segment := []];
    }

    /** start_segment */
    method StartSegment(frame: nat, env: R.Env)
      requires Valid()
      modifies this, sizes
      ensures Valid() && Contents() == R.StartSegment(old(Contents()), frame, env)
    {
      Close(env.closeOk);
      if failed {
        return;
      }
      if !env.setupOk {
        Error();
        return;
      }
      MakeRoom(env.stuck);
      if failed {
        return;
      }
      OpenFiles(frame, env);
    }

    /** The next segment, and room for it in the window. */
    method MakeRoom(stuck: map<nat, nat>)
      requires Valid() && !failed
      modifies this, sizes
      ensures Valid() && Contents() == R.EvictForWindow(R.NextSegment(old(Contents())), stuck)
    {
      segment := segment + 1;
      EvictForWindow(stuck);
    }

    /** The eviction loop of write_snapshot. */
    method EvictForBytes(size: nat, stuck: map<nat, nat>)
      requires Valid() && !failed
      modifies this, sizes
      ensures Valid() && Contents() == R.EvictForBytes(old(Contents()), size, config.limit, stuck)
    {
      while oldest < segment && bytes + size > config.limit
        invariant Valid() && !failed
        invariant R.EvictForBytes(Contents(), size, config.limit, stuck)
               == R.EvictForBytes(old(Contents()), size, config.limit, stuck)
        decreases segment - oldest
      {
        Evict(stuck);
        if failed {
          return;
        }
      }
    }

    /** The three counters that grow with a checkpoint. */
    method Charge(size: nat)
      requires Valid()
      modifies this`current, this`bytes, sizes
      ensures Valid()
      ensures Contents() == old(Contents()).(ring := Charged(old(Contents()).ring, size))
    {
      var slot := Slot(segment);
      SumUpdate(sizes[..], slot, sizes[slot] + size);
      current := current + size;
      bytes := bytes + size;
      ghost var before := sizes[..];
      sizes[slot] := sizes[slot] + size;
      assert sizes[..] == before[slot := before[slot] + size];
    }

    /** The last part of write_snapshot. */
    method StoreSnapshot(snapshot: seq<Byte>)
      requires Valid()
      modifies this`logs, this`blobs, this`current, this`bytes, sizes
      ensures Valid() && Contents() == R.StoreSnapshot(old(Contents()), snapshot)
    {
      var blob := if segment in blobs then blobs[segment] else [];
      Append(R.CheckpointLine(|blob|, snapshot));
      blobs := blobs[segment := blob + snapshot];
      Charge(|snapshot|);
    }

    /** write_snapshot */
    method WriteSnapshot(snapshot: seq<Byte>, env: R.Env)
      requires Valid() && !failed
      modifies this, sizes
      ensures Valid() && Contents() == R.WriteSnapshot(config, old(Contents()), snapshot, env)
    {
      var size := |snapshot|;
      if !env.saveOk || size == 0 || size > R.SNAPSHOT_LIMIT || current + size > R.STATE_LIMIT {
        Error();
        return;
      }
      EvictForBytes(size, env.stuck);
      if failed {
        return;
      }
      if !env.snapshotOk {
        Error();
        return;
      }
      StoreSnapshot(snapshot);
    }

    /** The rotation step of record_begin. */
    method Open(frame: nat, discontinuity: bool, env: R.Env)
      requires Valid() && !failed
      requires discontinuity == R.Discontinuous(Contents(), frame, env)
      modifies this, sizes
      ensures Valid() && Contents() == R.Opened(config, old(Contents()), frame, env)
    {
      var segmentLimit := if config.limit < R.STATE_LIMIT then config.limit else R.STATE_LIMIT;
      if !recording || rows >= R.SEGMENT_FRAMES ||
         (discontinuity && current > segmentLimit - R.SNAPSHOT_LIMIT) {
        StartSegment(frame, env);
      }
    }

    /** The input record of record_begin. */
    method WriteInput(b: R.Boundary, env: R.Env)
      modifies this`generation, this`recordedLoads, this`failed, this`pending, this`recording, this`logs, this`nextFrame
      ensures Contents() == R.WriteInput(old(Contents()), b, env)
    {
      generation := env.generation;
      recordedLoads := loads;
      if !env.lineOk {
        Error();
        return;
      }
      Append(R.InputLine(b));
      pending := true;
      nextFrame := NextFrame(b.frame);
    }

    /** record_begin */
    method Begin(b: R.Boundary, env: R.Env)
      requires Valid()
      modifies this, sizes
      ensures Valid() && Contents() == R.Begin(config, old(Contents()), b, env)
    {
      if failed || (!enabled && !config.autoRecord) {
        return;
      }
      if env.writerError {
        Error();
        return;
      }
      if env.speculative {
        Close(env.closeOk);
        return;
      }
      var discontinuity := b.frame != nextFrame || generation != env.generation || recordedLoads != loads;
      Open(b.frame, discontinuity, env);
      if failed {
        return;
      }
      if rows == 0 || discontinuity {
        WriteSnapshot(b.snapshot, env);
        if failed {
          return;
        }
      }
      WriteInput(b, env);
    }

    /** MmxReplayEnd while recording */
    method End(line: Line, frameOk: bool)
      modifies this`pending, this`failed, this`recording, this`rows, this`logs
      ensures Contents() == R.End(old(Contents()), line, frameOk)
    {
      if !pending || failed {
        return;
      }
      pending := false;
      if recording {
        if frameOk {
          Append(line);
        } else {
          Error();
        }
        rows := rows + 1;
      }
    }
  }
}
