/** The private-ROM patcher as it runs: the ROM bytes are an array that the loops write in place.
    Each method is the step of the same name in modules RomPatch and RomRestore. */
module RomPatcher {
  import opened Bytes
  import opened Windows
  import opened RomScan
  import P = RomPatch
  import R = RomRestore

  /** A run over the original ROM leads to q. */
  ghost predicate Follows(l: R.Layout, original: seq<Byte>, run: seq<R.Op>, q: R.Private) {
    P.Laid(l.sites, |original|) && q == R.Run(l, R.Private(original, R.Unscanned), run)
  }

  lemma StepFollows(l: R.Layout, original: seq<Byte>, run: seq<R.Op>, before: R.Private, op: R.Op, q: R.Private)
    requires R.Scans(l, original) && Follows(l, original, run, before) && R.Fits(l, before) && q == R.Step(l, before, op)
    ensures Follows(l, original, run + [op], q)
    ensures op.Frame? && op.margin == 0 ==>
              (q.rom == original <==> (R.Adopts(l, original, run + [op]) ==> P.StreamOriginal(original, l.body)))
  {
    R.RunSnoc(l, R.Private(original, R.Unscanned), run, op);
    if op.Frame? && op.margin == 0 {
      R.ZeroFrameRestores(l, original, run, op.native);
    }
  }

  class Patcher {
    const rom: array<Byte>
    const body: nat
    const enabled: bool
    var sites: seq<Site>
    var scanned: bool
    var valid: bool
    var streamScanned: bool
    var streamValid: bool

    /** The ROM as it was at first, and what has happened to it since. */
    ghost const original: seq<Byte>
    ghost var run: seq<R.Op>

    /** The parts that the loops need: operands in bounds, and gates that are only set by a scan. */
    ghost predicate Ready()
      reads this, rom
    {
      && P.Laid(sites, rom.Length) && P.Scaled(sites)
      && (valid ==> scanned)
      && (streamValid ==> streamScanned && body + P.BODY_SIZE <= rom.Length)
    }

    /** The object is where a run of the patcher, from the layout of the original ROM, has led. */
    ghost predicate Valid()
      reads this, rom
    {
      && Ready() && Faithful()
      && (!scanned ==> run == [])
      && Follows(R.ScannedLayout(original, body, enabled), original, run, Contents())
    }

    /** The table is that of the original ROM, or is still to be scanned from it. */
    ghost predicate Faithful()
      reads this, rom
    {
      if scanned then Layout() == R.ScannedLayout(original, body, enabled) else rom[..] == original
    }

    ghost function Contents(): R.Private
      reads this, rom
    {
      R.Private(rom[..], if !streamScanned then R.Unscanned else if streamValid then R.Present else R.Absent)
    }

    ghost function Layout(): R.Layout
      reads this
    {
      R.Layout(sites, valid, body, enabled)
    }

    constructor (rom: array<Byte>, body: nat, enabled: bool)
      ensures Valid() && !scanned && this.rom == rom && this.body == body && this.enabled == enabled
      ensures original == rom[..] && run == []
    {
      this.rom := rom;
      this.body := body;
      this.enabled := enabled;
      sites, scanned, valid := [], false, false;
      streamScanned, streamValid := false, false;
      original, run := rom[..], [];
    }

    method WriteWord(at: nat, value: Word)
      requires at + 1 < rom.Length
      modifies rom
      ensures rom[..] == P.Poke(old(rom[..]), at, value)
    {
      rom[at] := value % 0x100;
      rom[at + 1] := value / 0x100;
    }

    /** x3_scan_ws_rom_imms: the table is scanned from the ROM as it is now. */
    method ScanSites()
      requires Ready()
      modifies this`sites, this`scanned, this`valid
      ensures Ready() && scanned
      ensures Layout() == R.ScannedLayout(rom[..], body, enabled)
    {
      sites, valid := Scan(rom[..]);
      scanned := true;
      assert R.Scans(R.ScannedLayout(rom[..], body, enabled), rom[..]);
    }

    /** The loop of the frame patch (all sites) and of the hook (those in the routine). */
    method WriteSites(margin: nat, routineOnly: bool)
      requires Ready()
      modifies rom
      ensures rom[..] == P.PokeSites(old(rom[..]), sites, margin, routineOnly)
    {
      var i := 0;
      while i < |sites|
        invariant 0 <= i <= |sites| && P.Laid(sites[..i], rom.Length)
        invariant rom[..] == P.PokeSites(old(rom[..]), sites[..i], margin, routineOnly)
      {
        assert sites[..i + 1][..i] == sites[..i];
        if !routineOnly || P.InRoutine(sites[i]) {
          WriteWord(sites[i].operand, P.Widened(sites[i], margin));
        }
        i := i + 1;
      }
      assert sites[..i] == sites;
    }

    /** x3_ws_activation_hook: `dp` is the running object's direct page, `kind` its type byte. Before
        the first frame there is no hook, and nothing happens. */
    method Activate(margin: nat, dp: Word, kind: Byte)
      requires Valid()
      modifies rom, this`run
      ensures Valid()
      ensures run == if scanned then old(run) + [R.Activate(margin, NativeController(dp, kind))] else old(run)
    {
      ghost var op, before := R.Activate(margin, NativeController(dp, kind)), Contents();
      if valid {
        WriteSites(if NativeController(dp, kind) then 0 else margin, true);
      }
      if scanned {
        StepFollows(Layout(), original, run, before, op, Contents());
        run := run + [op];
      }
    }

    /** x3_scan_ws_spawn_stream */
    method ScanStream()
      requires Ready() && !streamScanned
      modifies this`streamScanned, this`streamValid
      ensures Ready() && streamScanned && (streamValid <==> P.Signature(rom[..], body))
    {
      streamScanned := true;
      streamValid := P.Signature(rom[..], body);
    }

    method WriteBytes(at: nat, bytes: seq<Byte>)
      requires at + |bytes| <= rom.Length
      modifies rom
      ensures rom[..] == P.PokeBytes(old(rom[..]), at, bytes)
    {
      for i := 0 to |bytes|
        invariant forall p :: 0 <= p < rom.Length ==>
                    rom[p] == if at <= p < at + i then bytes[p - at] else old(rom[p])
      {
        rom[at + i] := bytes[i];
      }
    }

    method WriteOperands(right: Word, pad: Word, columns: Word)
      requires body + P.BODY_SIZE <= rom.Length
      modifies rom
      ensures rom[..] == P.PokeOperands(old(rom[..]), body, right, pad, columns)
    {
      WriteWord(body + P.RIGHT_OPERAND, right);
      WriteWord(body + P.GRID_OPERAND, pad);
      WriteWord(body + P.COLUMNS_OPERAND, columns);
    }

    /** The writes of the stream patch. */
    method WriteStream(left: Word, right: Word)
      requires body + P.BODY_SIZE <= rom.Length
      modifies rom
      ensures rom[..] == P.PatchStream(old(rom[..]), body, left, right)
    {
      ghost var r0 := rom[..];
      WriteBytes(body + P.LEFT_ARM, P.LeftArm(left));
      ghost var r1 := rom[..];
      assert r1 == P.PokeBytes(r0, body + P.LEFT_ARM, P.LeftArm(left));
      var add, pad, columns := Wrap(0x100 + right as int), P.GridPad(0x20, left), P.Columns(0x0A, left, right);
      WriteOperands(add, pad, columns);
      assert rom[..] == P.PokeOperands(r1, body, add, pad, columns);
    }

    /** x3_patch_ws_interp_spawn_stream */
    method PatchStream(margin: nat)
      requires Ready()
      modifies rom, this`streamScanned, this`streamValid
      ensures Ready()
      ensures Contents().stream == R.ScanStream(Layout(), old(rom[..]), old(Contents()).stream)
      ensures rom[..] == if !streamValid then old(rom[..])
                         else var extra := P.StreamExtra(enabled, margin);
                              P.PatchStream(old(rom[..]), body, extra, extra)
    {
      if !streamScanned {
        ScanStream();
      }
      if streamValid {
        WriteStream(P.StreamExtra(enabled, margin), P.StreamExtra(enabled, margin));
      }
    }

    /** The window part of a frame: all sites, then the routine's for the running object. */
    method PatchWindows(margin: nat, native: bool)
      requires Ready()
      modifies rom
      ensures rom[..] == R.FrameWindows(Layout(), old(rom[..]), margin, native)
    {
      if valid {
        WriteSites(margin, false);
        WriteSites(if native then 0 else margin, true);
      }
    }

    /** The table is scanned before the first patch, and never again. */
    method ScanOnce()
      requires Ready()
      modifies this`sites, this`scanned, this`valid
      ensures Ready() && scanned
      ensures Layout() == if old(scanned) then old(Layout()) else R.ScannedLayout(rom[..], body, enabled)
    {
      if !scanned {
        ScanSites();
      }
    }

    /** The steps of a frame on a scanned ROM. */
    method PatchRom(margin: nat, native: bool)
      requires Ready() && scanned
      modifies rom, this`streamScanned, this`streamValid
      ensures Ready() && Contents() == R.Step(Layout(), old(Contents()), R.Frame(margin, native))
    {
      ghost var layout, before := Layout(), Contents();
      PatchWindows(margin, native);
      ghost var patched := rom[..];
      PatchStream(margin);
      assert Layout() == layout && patched == R.FrameWindows(layout, before.rom, margin, native);
    }

    /** The steps of a frame, the first of which scans. */
    method PatchFrame(margin: nat, native: bool)
      requires Ready() && Faithful()
      modifies rom, this`sites, this`scanned, this`valid, this`streamScanned, this`streamValid
      ensures Ready() && scanned && Layout() == R.ScannedLayout(original, body, enabled)
      ensures R.Fits(Layout(), old(Contents())) && Contents() == R.Step(Layout(), old(Contents()), R.Frame(margin, native))
    {
      ScanOnce();
      PatchRom(margin, native);
    }

    /** x3_patch_ws_interp_obj_windows, once a frame. A frame at margin 0 restores the original ROM
        unless the stream patcher has adopted what was not its own. */
    method Frame(margin: nat, dp: Word, kind: Byte)
      requires Valid()
      modifies this, rom
      ensures Valid() && scanned
      ensures run == old(run) + [R.Frame(margin, NativeController(dp, kind))]
      ensures margin == 0 ==>
                (rom[..] == original <==> (R.Adopts(Layout(), original, run) ==> P.StreamOriginal(original, body)))
    {
      ghost var op, before := R.Frame(margin, NativeController(dp, kind)), Contents();
      PatchFrame(margin, NativeController(dp, kind));
      StepFollows(Layout(), original, run, before, op, Contents());
      run := run + [op];
    }
  }
}
