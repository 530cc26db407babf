# Verified model of the Mega Man X3 host tools

This project models the parts of the Mega Man X3 recompilation that carry non-trivial protocols and
proves properties of them in Dafny 4.11. `dafny verify dfyconfig.toml` checks everything.

1. **Diagnostic recording and playback** (`src/mmx_replay.c`). `Recorder` holds the transitions of the
   recorder's static variables and `Recording` the imperative class that performs them; `Player` and
   `Playback` do the same for the player. `HistoryRing` is the ring of per-segment sizes.
   `RecorderSafety` proves the storage invariant in every reachable state, `History` what a segment's
   files stand for, and `RecordPlayback` the theorem over whole sessions: every file left behind plays
   back to exactly the frames it recorded if and only if its last frame completed, and is reported as
   failed otherwise. `ReplayDamage` proves
   that a damaged checkpoint file is noticed. `RecorderProgress` and `SteadyRecording` prove the other direction: exactly when a
   frame is recorded, that nothing is evicted without need, and that an undisturbed session loses no
   frame. `ReplayLog`, `Text`, `Fnv` and `Machine` are the record format, number scanning,
   the digest and the machine interface.
2. **Log inspection and truncation** (`tools/replay_diagnostic.py`): `ReplayInspect`, and `ReplayFiles`
   for the agreement of printer, script, truncation and player on the text of a file.
3. **The private-ROM widescreen patcher** (`src/x3_rtl.c`): `Windows` (16-bit window arithmetic),
   `RomScan` (pattern scanner), `RomPatch`, `RomRestore` and the array-writing class in `RomPatcher`,
   `RomWindows` (from machine code to widened windows), `RomCollision` (images on which restoring and parity fail), `SpawnStream` (record stream),
   `OamTracker` (sprite coordinates).
4. **The generated-code rewriter** (`tools/apply_overrides.py`): `MarkedLines`, `WindowScan`,
   `Overrides`, `OverrideSites`, `OverrideStream` for the passes over lines, `OverrideMeaning`
   for what the injected lines say; `PhysicalLines`,
   `OverrideText`, `OverrideReread` and `OverrideFiles` for files that are written and read again, with
   the file in `OverrideUnterminated` on which that goes wrong.
5. **Supporting arithmetic**: `DisplayWidth` (`src/x3_display.c`) and `Regions`
   (`tools/diz_annotations.py`).

Code that updates variables step by step is a class or a method with loops whose postcondition ties
its result to a specification function; the theorems are about those functions.

## What is assumed

- The engine (`Machine.Faithful`): loading a saved machine restores it, a frame is a function of the
  machine, the input and the recorded settings, and it advances the 32-bit frame counter by one. A
  machine that meets this is given in `SteadyRecording.CounterIsFaithful`.
- The host (`RecordPlayback.FrameHonest`), whatever the recorder makes of it: a machine that is not the
  one the last frame left has another frame number, or another state generation than at that frame, or
  a load was reported since; inputs are 32 bits; frame widths are legal; extended frame timing, once on,
  stays on. `Begin` and `End` alternate; the session may end in a frame that never returns.
  `RecorderSafety.MissedEndOverruns` shows what alternation is needed for.
- The writer is an append-only log and a checkpoint file per segment. Each of its calls, and each file
  removal, may fail at any time; only the theorems on progress ask that it does not. Its digest worker
  uses the digest of `src/mmx_replay.c`, and its `S` and `H` lines are the ones the player parses.
- `kWsExtraMax` is defined in a header that is not part of this model. It is the parameter `extraMax`,
  and every statement holds for all its values (below 2^30 where lines are printed).
- The ROM offset of `$00:DE3A`, the coprocessor window test and the margin of a frame are parameters.

- The rewriter's regular expressions are a parameter (`OverrideText.PatternsOk`): what they capture of an
  assignment stands in the line as `blanks uint16 name = literal;`, and names and literals are words.

## Where the code does not do what is said of it

- "A zero margin restores every original value" (`src/x3_rtl.c:807`) holds of the whole ROM exactly when
  the stream patcher does not adopt the scanned ROM as the first frame leaves it, or the ROM already had
  the stream's original bytes (`RomRestore.ZeroFrameRestores`; `RestoredForEveryRun` for all runs). The
  stream signature is tested after the first window patch, so an operand that both patchers own can make
  it match a ROM it should not. `RomCollision.CollisionIsNotRestored` is such a ROM, with the scanner's
  24 operands; without a shared byte the restoration always holds (`RomRestore.DisjointRestores`).
- The rewritten ROM is said to match the generated helpers (`src/x3_rtl.c:970`,
  `tools/apply_overrides.py:20-21`). An operand that lies on the stream's bytes does not, unless those
  bytes happen to agree (`RomRestore.FrameParity` is the exact condition; `RightOperandAgrees` works it
  out for the one stream operand that is also a trigger constant). `RomCollision.CollisionBreaksParity`
  is a ROM with the genuine stream on which the tiers differ at every margin but 0; without a shared
  byte they always agree (`RomRestore.DisjointParity`).
- "Injection is idempotent and `--restore` removes every marked line" (`tools/apply_overrides.py:21-22`)
  holds, as far as the code in the file is concerned, exactly when the last line of code ends in a
  newline or is not injected after (`OverrideFiles.ApplyIsIdempotent`, `RestoreUndoesApply`). Otherwise
  the snippet lands on that line, and the next run or `--restore` drops both
  (`OverrideUnterminated.UnterminatedFileLosesCode`).

## Model

| member | source | states |
|---|---|---|
| Fnv.XorBits | src/mmx_replay.c:87-91 | the digest's exclusive or agrees with the definition bit by bit |
| Fnv.HashContinue | src/mmx_replay.c:87-91 | the byte loop computes the left fold of the digest step |
| Fnv.FoldJoin | src/mmx_replay.c:103-109 | continuing a digest over a second buffer is digesting both joined |
| Fnv.OneByteShows | src/mmx_replay.c:87-91 | buffers that differ in one byte have different digests, from any state |
| Fnv.DigestNotices | src/mmx_replay.c:92-94 | changing any one byte of a buffer changes its digest |
| Fnv.KnownDigests | src/mmx_replay.c:92-94 | the digests of nothing and of a zero byte are those of 32-bit FNV-1a |
| Machine.Hashes | src/mmx_replay.c:103-109 | the player's four digests, sprite memory in two parts, are those the recorder's worker writes |
| ReplayLog.PolicyDecodes | src/mmx_replay.c:79-82 | every flag word policy() builds passes the player's mask and decodes to the settings it was built from |
| ReplayLog.LegalIsPolicy | src/mmx_replay.c:298-313 | conversely every flag word the mask admits is the policy of the settings it decodes to |
| ReplayLog.PolicyBits | src/mmx_replay.c:79-82 | which bit of the flag word is which setting, and that the two others are clear |
| ReplayLog.DecodeBits | src/mmx_replay.c:310-313 | which setting each bit of an admitted flag word turns on in the replay |
| ReplayLog.PrintsAs | src/mmx_replay.c:341-343 | the records' formats: which value stands where, in which base and width |
| ReplayLog.PrintClassify | src/mmx_replay.c:287-299 | scanning a printed S, I or H line gives back all its fields, for all 32-bit values |
| ReplayLog.InputRoundTrip | src/mmx_replay.c:298-315 | an input line scans back to the same five values, passes all checks and decodes to the same settings |
| ReplayLog.PrintFits | src/mmx_replay.c:341-343 | no printed line is cut by the 160-byte or 256-byte buffers |
| ReplayLog.HeaderRoundTrip | src/mmx_replay.c:240-251 | a recorded header is accepted if and only if ROM and mod selection are the recorded ones |
| Player.StoppedIsAbsorbing | src/mmx_replay.c:349-359 | failure and completion are absorbing |
| Player.EndAccepts | src/mmx_replay.c:358-385 | a frame is accepted exactly when the next record is the digest record of the machine at the expected frame |
| Player.FinishedIffCertified | src/mmx_replay.c:278-317 | for every log, playback finishes if and only if a certificate accounts for every record: each frame starts from the previous one or from a checkpoint in bounds, all there, with the recorded digest; its input is legal, and a matching digest record follows; otherwise it fails |
| Player.FinishedEndsInResult | src/mmx_replay.c:363-371 | a log that does not end in a digest record never finishes |
| Playback.Session.LoadCheckpoint | src/mmx_replay.c:287-296 | restoring a checkpoint is the specified transition, in all its error cases |
| Playback.Session.TakeInput | src/mmx_replay.c:298-316 | taking an input record is the specified transition, in all its error cases |
| Playback.Session.Begin | src/mmx_replay.c:349-354 | Begin is the specified transition and tells the host to run exactly when playback goes on |
| Playback.Session.End | src/mmx_replay.c:358-385 | End is the specified transition |
| HistoryRing.HistoryLimit | src/mmx_replay.c:188-200 | the limit is always between 2 MiB and 256 MiB |
| HistoryRing.FreshSlotIsEmpty | src/mmx_replay.c:207-210 | a newly started segment never inherits bytes from the segment 360 before it |
| HistoryRing.LoneSegmentHoldsAll | src/mmx_replay.c:272-275 | when nothing older is left to evict, the current segment accounts for every byte |
| Recording.Recording.Evict | src/mmx_replay.c:177-187 | eviction on the array is the specified step; the subtraction cannot underflow |
| Recording.Recording.EvictForWindow | src/mmx_replay.c:208-209 | the window loop performs the specified evictions and stops at the first failure |
| Recording.Recording.EvictForBytes | src/mmx_replay.c:272-273 | the byte loop performs the specified evictions and stops at the first failure |
| Recording.Recording.StartSegment | src/mmx_replay.c:201-230 | the whole new state after starting a segment, for every failure |
| Recording.Recording.WriteSnapshot | src/mmx_replay.c:266-277 | the whole new state after writing a checkpoint, for every failure |
| Recording.Recording.Begin | src/mmx_replay.c:318-348 | the whole new state after record_begin, for every failure |
| Recording.Recording.End | src/mmx_replay.c:386-394 | the whole new state after the end of a recorded frame |
| Recording.Recording.Close | src/mmx_replay.c:117-128 | closing ends the recording and keeps the files |
| Recording.Recording.Enable | src/mmx_replay.c:129-133 | enabling clears an earlier failure only on the off-to-on edge; disabling closes |
| RecorderSafety.StartSound | src/mmx_replay.c:201-230 | starting a segment keeps books and files in agreement and gives an empty segment inside the ring window, or closes |
| RecorderSafety.SnapshotSound | src/mmx_replay.c:266-277 | past the guard of record_begin, a checkpoint never takes the total over the limit, also with nothing left to evict |
| RecorderSafety.BeginSound | src/mmx_replay.c:318-348 | every Begin between frames keeps the storage invariant, and either records one input behind at most one checkpoint or leaves no recording open |
| RecorderSafety.EndSound | src/mmx_replay.c:358-394 | End keeps the storage invariant and appends at most the digest record |
| RecorderSafety.OthersSound | src/mmx_replay.c:117-140 | Close, Enable and StateLoaded keep the storage invariant; a reported load makes the next frame a discontinuity, whatever its number and generation |
| RecorderSafety.DiskWithinLimit | src/mmx_replay.c:45-47 | the checkpoint files on disk together never exceed history_limit() |
| RecorderSafety.MissedEndOverruns | src/mmx_replay.c:335-338 | a second Begin without End can double the limit |
| RecorderProgress.RecordsIffPossible | src/mmx_replay.c:318-348 | while no removal resists, a frame is recorded if and only if recording is on, the writer is well and the segment and checkpoint it needs can be made; no budget ever stops a recording |
| RecorderProgress.FailsIffNeither | src/mmx_replay.c:323-346 | exactly the frames that are neither skipped nor recorded latch the failure; a speculative one does not |
| RecorderProgress.OthersFail | src/mmx_replay.c:117-140 | End, Close and Enable latch it exactly for a refused digest record or a segment that does not close |
| RecorderProgress.SwitchRearms | src/mmx_replay.c:129-133 | a failed recorder records nothing until it is switched off and on, and then as if it had never failed |
| RecorderProgress.EvictsOnlyOfNeed | src/mmx_replay.c:201-277 | the last segment evicted had to go: with it there would be more than 360 segments or more bytes than the limit |
| RecorderProgress.BeginRetains | src/mmx_replay.c:177-187 | only evicted segments lose their logs |
| History.RecordedSegmentPlays | src/mmx_replay.c:278-317 | a recorded segment plays to completion from any machine, through the recorded machines, inputs and settings |
| History.RefusedOnlyByLatch | src/mmx_replay.c:313-314 | a player with extended timing on plays a segment if and only if the segment starts with it on |
| ReplayDamage.DamageStops | src/mmx_replay.c:289-294 | change any byte of any recorded checkpoint: playback executes exactly the frames before it and fails, whatever machine the damaged bytes might restore |
| ReplayDamage.EveryDamageShows | src/mmx_replay.c:289-294 | so it is for every file of every session |
| RecordPlayback.EverySessionIsSound | src/mmx_replay.c:333-347 | in every state of every session the running total is the sum of the slots, bounds the files on disk and never exceeds the limit; the open segment lies in the window and its slot is its byte count |
| RecordPlayback.EveryFilePlaysBack | src/mmx_replay.c:358-395 | every file of every session plays back to exactly its recorded frames if and only if its last record is a digest record, and fails otherwise |
| RecordPlayback.LoadedFrameIsCheckpointed | src/mmx_replay.c:138-140 | a recorded frame that follows a load is a checkpointed row holding the loaded machine |
| RecordPlayback.ReportedIsCheckpointed | src/mmx_replay.c:333-338 | so is a recorded frame with another frame number or state generation than the last one left |
| RecordPlayback.SettingIsKept | src/mmx_replay.c:188-200 | a session configured with n MiB never has more than n MiB of checkpoints on disk |
| SteadyRecording.EverySessionIsBounded | src/mmx_replay.c:45-47 | every session leaves at most 360 files of at most 600 frames |
| SteadyRecording.TickRecorded | src/mmx_replay.c:318-394 | a completed frame becomes the last row of its segment if and only if it can be recorded |
| SteadyRecording.SteadyHour | src/mmx_replay.c:42-47 | if the limit has room for 360 checkpoints, an undisturbed session holds exactly its last 360 segments, all playable |
| SteadyRecording.SteadySession | src/mmx_replay.c:318-394 | an undisturbed session of any length takes one segment per 600 frames, and every segment not evicted plays back through exactly its frames |
| ReplayInspect.Inspect | tools/replay_diagnostic.py:14-38 | the script accepts exactly the files whose digest records stand exactly behind input records, and counts frames and checkpoints |
| ReplayInspect.CutIsRejected | tools/replay_diagnostic.py:20-32 | a printed record cut behind any of its fields but the last is rejected |
| ReplayInspect.Until | tools/replay_diagnostic.py:96-107 | truncation succeeds exactly for 1 up to the number of marked lines and cuts behind the n-th |
| ReplayInspect.CutIsUnique | tools/replay_diagnostic.py:100-105 | there is only one place to cut |
| ReplayInspect.EveryPrefixAccepted | tools/replay_diagnostic.py:20-32 | every record-boundary prefix of every recorded file is accepted, with one frame per digest record |
| ReplayFiles.PrintedFilePlays | src/mmx_replay.c:240-257 | playing the text of a recording is playing the recording; another ROM or mod selection is refused |
| ReplayFiles.CutFilePlays | tools/replay_diagnostic.py:96-107 | a file cut at its n-th digest record is accepted as n complete frames and plays to completion after exactly n rows |
| ReplayFiles.EverySessionFilePlays | tools/replay_diagnostic.py:14-38 | from sessions to text: every file left behind is accepted and plays as recorded |
| DisplayWidth.ComputeFrameWidth | src/x3_display.c:15-30 | every width is even and within the range the player accepts |
| DisplayWidth.FrameWidthExactly | src/x3_display.c:7-30 | the width is r if and only if r is the legal width nearest to the least even integer not below 192 w/h - 1/2; without widescreen or a positive size it is 256 |
| DisplayWidth.UnclampedExactly | src/x3_display.c:15-30 | it is that integer itself if and only if that is legal |
| DisplayWidth.EvenWidthIsLeastEven | src/x3_display.c:22-28 | before clamping, the rounding computes the least even integer not below 192 w/h - 1/2, so it is within [-1/2, 3/2) of 192 w/h |
| DisplayWidth.WidthIsMonotone | src/x3_display.c:15-30 | a wider window never gets a narrower frame |
| Regions.BuildRegions | tools/diz_annotations.py:249-257 | the regions are contiguous, cover every byte once, expand to the per-byte kinds, stay within banks and are maximal |
| Regions.CompressionUnique | tools/diz_annotations.py:249-257 | those properties determine the regions |
| Regions.RegionStarts | tools/diz_annotations.py:249-257 | a region starts exactly at a bank start or where the kind changes |
| Regions.CodeStaysTogether | tools/diz_annotations.py:250-252 | no region starts between an opcode and its operands inside a bank |
| Regions.DataStaysApart | tools/diz_annotations.py:250-252 | data of two names is never joined into one region |
| Regions.AddressesInvert | tools/diz_annotations.py:89-98 | a printed start address leads back to its offset if and only if it is below bank $7E |
| Windows.SymmetricWidening | src/x3_rtl.c:876-890 | the 16-bit comparison with widened operands is exactly the signed window if and only if add + margin is at most $7F00 |
| Windows.WideningIsMonotone | src/x3_rtl.c:580-586 | a wider margin accepts whatever a narrower one did |
| Windows.CenteredWidening | src/x3_rtl.c:907-921 | the centered distance form widens both ends by the margin, for every bias and carry, if and only if both ends stay in signed 16-bit range |
| Windows.CenteredShift | src/x3_rtl.c:907-909 | growing its leading operand alone only shifts the window |
| Windows.BoxWidening | src/x3_rtl.c:892-905 | both edges of the bounding-box form move out by the margin |
| Windows.NativeSlots | src/x3_rtl.c:575-578 | native are type 4 objects in the 48 resident slots, and only they |
| RomScan.TriggerMeans | src/x3_rtl.c:922-943 | the search records the first qualifying ADC behind a camera-X read, and nothing if none qualifies |
| RomScan.FindTrigger | src/x3_rtl.c:923-942 | the nested loops perform that search in bounds |
| RomScan.AddSite | src/x3_rtl.c:847-865 | the table takes no operand twice and nothing past 64 entries |
| RomScan.Scan | src/x3_rtl.c:867-947 | the scan builds the specified table for every ROM, and the gate is the expected count |
| RomScan.ScanGuarantees | src/x3_rtl.c:829-944 | for every ROM: at most 64 operands, none twice, no two sharing a byte, each base the ROM word, and no pattern missed unless the table is full |
| RomWindows.TriggersAreCode | src/x3_rtl.c:922-943 | the triggers looked for are the described code, byte by byte |
| RomWindows.ScalesAreRight | src/x3_rtl.c:876-944 | for every ROM an operand is recorded at scale 2 if and only if it is the limit of a window |
| RomWindows.RecordedIsJustified | src/x3_rtl.c:876-944 | and every recorded operand is one of a window or of a trigger |
| RomWindows.WindowWidens | src/x3_rtl.c:876-998 | a standard, box or centered window written as bytes in any accepted ROM: after any run and frame its add operand is base + margin and its limit operand base + 2 margin |
| RomWindows.TriggerWidens | src/x3_rtl.c:922-998 | likewise for a trigger's constant, unless it is the limit of its own box |
| RomWindows.PatchedStandard | src/x3_rtl.c:876-998 | the patched standard comparison, read off the ROM, accepts exactly the signed window if and only if add + margin is at most $7F00 |
| RomWindows.PatchedBox | src/x3_rtl.c:892-998 | the patched box stores edges moved out by the margin |
| RomWindows.PatchedCentered | src/x3_rtl.c:907-998 | the patched distance form has both ends moved out by the margin, exactly while in signed range |
| RomWindows.RoutineByObject | src/x3_rtl.c:970-985 | the object that entered the routine last, by direct page and type, decides whether its operands are native or widened |
| RomPatch.PokeWord | src/x3_rtl.c:992-998 | every written operand holds base + scale * margin in 16 bits, every skipped one its old word |
| RomPatch.PokeUntouched | src/x3_rtl.c:977-984 | bytes outside recorded operands never change |
| RomPatch.TierParity | src/x3_rtl.c:973-985 | after a frame patch or a routine entry, the routine's operands equal what the generated helpers return for the running object |
| RomRestore.FrameParity | src/x3_rtl.c:970-1007 | after any run, frame and entries, an operand equals what the helpers return if and only if the stream patcher has not adopted the ROM, or the hook rewrote it since, or the stream's bytes agree with it |
| RomRestore.DisjointParity | src/x3_rtl.c:970-1007 | they always agree when no window operand lies on the stream's sites |
| RomRestore.RightOperandAgrees | src/x3_rtl.c:791-799 | for an operand on the stream's right edge the bytes agree if and only if the stream is opted in and the margin is whole columns, or the margin is 0 modulo 2^16 |
| RomRestore.RunKeeps | src/x3_rtl.c:987-1007 | over any run, bytes that neither patcher owns never change |
| RomRestore.ZeroFrameRestores | src/x3_rtl.c:987-1007 | after any run one frame at margin 0 restores the ROM if and only if the scanned ROM does not match the stream's signature after the first frame's window patch, or had the stream's bytes |
| RomRestore.RestoredForEveryRun | src/x3_rtl.c:987-1007 | every run is undone if and only if no first frame makes a foreign ROM match the signature |
| RomRestore.DisjointRestores | src/x3_rtl.c:768-800 | it always does when no window operand lies on the stream's sites |
| RomCollision.ScannedTable | src/x3_rtl.c:867-947 | an image in which the scanner finds exactly 24 operands, one of them the stream's right edge |
| RomCollision.GenuineStream | src/x3_rtl.c:745-752 | the image with $0100 there carries the stream's whole signature |
| RomCollision.CollisionIsNotRestored | src/x3_rtl.c:720-761 | with $00C0 there and a first frame at margin 64 that image is never restored |
| RomCollision.CollisionBreaksParity | src/x3_rtl.c:774-800 | with $0100 there and the stream not opted in, the tiers agree at a later margin if and only if it is 0 modulo 2^16 |
| RomPatcher.Patcher.WriteSites | src/x3_rtl.c:992-998 | the write loop on the ROM array is the specified rewriting |
| RomPatcher.Patcher.Activate | src/x3_rtl.c:973-985 | the hook on the ROM array extends the run of the specified patcher on the original ROM, and does nothing before the first frame |
| RomPatcher.Patcher.Frame | src/x3_rtl.c:987-1007 | a frame on the ROM array, the first of which scans, extends that run; at margin 0 the array is the original ROM if and only if ZeroFrameRestores says so |
| SpawnStream.ExtraIsColumns | src/x3_rtl.c:669-677 | the extra is whole columns and at least the margin |
| SpawnStream.SweepCovers | src/x3_rtl.c:687-698 | for every camera the sweep covers the widened view, edges included, and the native view with no extra |
| SpawnStream.NoColumnToSpare | src/x3_rtl.c:692-698 | one column fewer misses the right edge |
| SpawnStream.SameLeftColumn | src/x3_rtl.c:783-788 | the rewritten left arm and the camera less the extra lie in the same column, for either carry |
| SpawnStream.StreamParity | src/x3_rtl.c:768-800 | after any frame of an adopted scanned ROM the guest's three operands equal the helpers' values for the native ones, and its left arm, executed as its bytes stand, stores a value in the helper's column and joins the native code at the same instruction, for every camera and either carry |
| OamTracker.OneBit | src/x3_rtl.c:67-72 | one slot's bit leaves the other 127 alone |
| OamTracker.LastWriteWins | src/x3_rtl.c:62-74 | a slot is marked exactly when its last write was the microcode's X store, and holds that signed value |
| OamTracker.PublishedIsLastStore | src/x3_rtl.c:76-88 | an upload publishes exactly the last stored X of its slot, and only with a matching low byte |
| OamTracker.Tracker.RamWritten | src/x3_rtl.c:62-74 | the observer on bitmap and array is the specified step |
| OamTracker.Tracker.XyUploaded | src/x3_rtl.c:76-88 | the upload hook publishes as specified |
| MarkedLines.InjectLines | tools/apply_overrides.py:188-196 | the output is each line followed by its injected line |
| MarkedLines.InjectPlaces | tools/apply_overrides.py:188-195 | every line is kept in its place, with its injected line directly behind it |
| MarkedLines.StripInject | tools/apply_overrides.py:284-287 | stripping undoes any injection |
| WindowScan.FindsExactlyWindows | tools/apply_overrides.py:98-145 | the line scan finds every window of the text and nothing else, in order, none overlapping |
| Overrides.FindPairs | tools/apply_overrides.py:91-145 | pass 1 computes the pair and landing edits and the pair count |
| Overrides.FindTriggers | tools/apply_overrides.py:147-186 | pass 2 computes the trigger edits, on lines pass 1 left alone |
| Overrides.ApplyObjectWindows | tools/apply_overrides.py:91-196 | both passes and the output loop |
| OverrideSites.InjectedExactly | tools/apply_overrides.py:91-186 | a line is injected after if and only if it belongs to a horizontal window, a trigger or a landing threshold |
| OverrideSites.PairsExactly | tools/apply_overrides.py:91-145 | a pair is exactly a camera-X read, the first add constant within 59 lines and the first limit that belongs to it within 39 (179 when centered), and is always injected |
| OverrideSites.TriggersExactly | tools/apply_overrides.py:147-186 | a trigger is exactly a camera-X read, the first free trigger constant within 39 lines and a comparison within 29, and is always injected |
| OverrideSites.PairIsHorizontal | tools/apply_overrides.py:106-145 | a pair follows a camera-X read of its function with no camera read or header between, within the budgets, and is symmetric or the one centered pair |
| OverrideSites.TriggerIsHorizontal | tools/apply_overrides.py:147-186 | likewise for a trigger |
| OverrideSites.OnePartner | tools/apply_overrides.py:134-145 | two pairs that share a line are the same pair |
| OverrideSites.PairInjected | tools/apply_overrides.py:134-145 | both lines of every pair are injected after |
| OverrideSites.TriggerInjected | tools/apply_overrides.py:181-186 | a trigger's add goes through the add helper |
| OverrideSites.LandingInjected | tools/apply_overrides.py:111-116 | a landing threshold goes through the landing helper |
| OverrideMeaning.PairMeaning | tools/apply_overrides.py:68-74 | read back, a pair's lines assign X3WsObjWinAdd of the add constant and X3WsObjWinLimit of the limit constant to their own variables |
| OverrideMeaning.TriggerMeaning | tools/apply_overrides.py:181-186 | a trigger's line assigns X3WsObjWinAdd of its constant |
| OverrideMeaning.LandingMeaning | tools/apply_overrides.py:111-116 | a landing's line assigns X3HunterLandingCameraY of the variable that was read |
| OverrideMeaning.StreamMeaning | tools/apply_overrides.py:77-88 | each stream operand's line assigns its own helper of its own variable |
| OverrideSites.Census | tools/apply_overrides.py:62-65 | sites are always 2 per pair, plus landings, plus triggers, no line used twice |
| OverrideStream.StreamEditsExactly | tools/apply_overrides.py:199-244 | the stream pass edits exactly the left edge, right edge, grid pad and column count below each label of its routine, each through its own helper |
| OverrideStream.ApplySpawnStream | tools/apply_overrides.py:199-255 | the stream pass computes the specified edits and output |
| OverrideFiles.StripUndoesProcessing | tools/apply_overrides.py:284-295 | stripping processed lines gives back the stripped input; for clean lines, the lines |
| PhysicalLines.ReadJoin | tools/apply_overrides.py:264-298 | lines that were written are read back as they were if and only if they are physical lines |
| OverrideText.ObjectEditable | tools/apply_overrides.py:68-88 | every line injected for an object window, trigger or landing is one physical line with a marker |
| OverrideText.StreamEditable | tools/apply_overrides.py:77-88 | so is every line injected by the stream pass |
| OverrideFiles.RestoredCode | tools/apply_overrides.py:269-282 | restoring leaves exactly the code, and a clean file as it is |
| OverrideFiles.ApplyKeepsCode | tools/apply_overrides.py:284-298 | applying keeps the code of a file if and only if its last line ends in a newline or is not injected after |
| OverrideFiles.RestoreUndoesApply | tools/apply_overrides.py:269-298 | restoring after applying gives what restoring alone gives, under the same condition and only then |
| OverrideFiles.ApplyIsIdempotent | tools/apply_overrides.py:284-298 | applying twice, with current or stale markers, is applying once, under the same condition and only then |
| OverrideFiles.ProcessFile | tools/apply_overrides.py:263-308 | what is written, counted and called stale for each mode, from a file's text to a file's text |
| OverrideFiles.RunsKeepCode | tools/apply_overrides.py:263-308 | every sequence of runs, each reading what the one before wrote, keeps the code if and only if its last line ends in a newline or is not injected after |
| OverrideFiles.RunsRecover | tools/apply_overrides.py:263-308 | then restoring recovers exactly the code after any runs, and applying gives what one application would have |
| OverrideUnterminated.UnterminatedFileLosesCode | tools/apply_overrides.py:263-298 | a clean file without a final newline whose last line is lost by applying and restoring |
| OverrideFiles.ProcessFiles | tools/apply_overrides.py:311-370 | main processes every file and accepts exactly the expected totals, with no stale file under --check |
| OverrideFiles.BuildCensus | tools/apply_overrides.py:351-354 | over all files sites are two per pair plus landings plus triggers, so the accepted totals leave 8 landings and triggers |

## Left out

- Recorder.NextSegment: segment numbers are natural numbers; the 32-bit counter of the source would
  wrap after 2^32 segments in one session.
- Recorder.SnapshotFits: a failing `realloc` and a second serialization of another size are one
  outcome of the environment.
- Player.Play: errors when closing a stream, and read errors reported by `ferror`, are not modelled.
- Text.ScanNumber: numerals beyond the range of C's conversions are reduced modulo 2^32; lines are
  taken as `fgets` returns them, and blanks are the ASCII ones.
- OverrideSites.InjectedExactly: what the regular expressions match within a line is a parameter, and a
  line with a marker is taken to match none of them.
- PhysicalLines.ReadJoin: files are text after Python's newline translation; that a rewritten file with
  other line ends gets plain newlines is not modelled.
- Files, directories, process start-up, console output, sidecar files and the mod selection text.
- The interpreter bridge, picture and sound hardware, cartridge mapping and the writer's thread.
- The frame driver and interrupt entry, whose behaviour is almost all in the interpreter bridge.
- HUD, arena, chamber and landing framing: table lookups and clamps that would only add easy members.
- The floating-point viewport, the volume control, the sound player and the debug tools.
- Symbol overlays and instruction metadata of the disassembly import; `apply_active_set`.
