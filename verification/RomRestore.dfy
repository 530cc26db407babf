/** Whole runs of the private-ROM patcher: any sequence of frames and routine entries, and what one
    more frame at margin 0 restores. */
module RomRestore {
  import opened Bytes
  import opened Windows
  import opened RomScan
  import opened RomPatch

  /** Fixed once the ROM has been scanned: the operand table and its gate, the offset of the stream
      body, and whether the stream is opted in. */
  datatype Layout = Layout(sites: seq<Site>, valid: bool, body: nat, enabled: bool)

  datatype Stream = Unscanned | Absent | Present

  datatype Private = Private(rom: seq<Byte>, stream: Stream)

  /** One host frame, or one interpreted entry to the activation routine; each finds its own margin
      and its own running object. */
  datatype Op = Frame(margin: nat, native: bool) | Activate(margin: nat, native: bool)

  predicate Fits(l: Layout, q: Private) {
    && Laid(l.sites, |q.rom|)
    && (q.stream == Present ==> l.body + BODY_SIZE <= |q.rom|)
  }

  function FrameWindows(l: Layout, rom: seq<Byte>, margin: nat, native: bool): (r: seq<Byte>)
    requires Laid(l.sites, |rom|)
    ensures |r| == |rom|
  {
    if l.valid then PatchWindows(rom, l.sites, margin, native) else rom
  }

  /** The signature is tested once, on the ROM as the first frame's window patch left it. */
  function ScanStream(l: Layout, rom: seq<Byte>, stream: Stream): (s: Stream)
    ensures s != Unscanned
  {
    if stream != Unscanned then stream else if Signature(rom, l.body) then Present else Absent
  }

  function Step(l: Layout, q: Private, op: Op): (r: Private)
    requires Fits(l, q)
    ensures Fits(l, r) && |r.rom| == |q.rom|
  {
    match op
    case Activate(margin, native) => if l.valid then q.(rom := Hook(q.rom, l.sites, margin, native)) else q
    case Frame(margin, native) =>
      var rom := FrameWindows(l, q.rom, margin, native);
      var stream := ScanStream(l, rom, q.stream);
      var extra := StreamExtra(l.enabled, margin);
      Private(if stream == Present then PatchStream(rom, l.body, extra, extra) else rom, stream)
  }

  function Run(l: Layout, q: Private, ops: seq<Op>): (r: Private)
    requires Fits(l, q)
    ensures Fits(l, r) && |r.rom| == |q.rom|
    decreases |ops|
  {
    if ops == [] then q else Run(l, Step(l, q, ops[0]), ops[1..])
  }

  /** The table as scanned from `original`. */
  predicate Scans(l: Layout, original: seq<Byte>) {
    && Laid(l.sites, |original|)
    && Scaled(l.sites)
    && forall k :: 0 <= k < |l.sites| ==> l.sites[k].base == WordAt(original, l.sites[k].operand)
  }

  /** The layout that the patcher makes of a ROM when it scans it. */
  function ScannedLayout(rom: seq<Byte>, body: nat, enabled: bool): (l: Layout)
    ensures Scans(l, rom)
  {
    ScanGuarantees(rom);
    Layout(Table(rom), |Table(rom)| == SITES_EXPECTED, body, enabled)
  }

  /** Bytes that neither patcher owns. */
  predicate Foreign(l: Layout, stream: Stream, p: nat) {
    && (l.valid ==> !Touched(l.sites, p))
    && (stream == Present ==> !InStream(l.body, p))
  }

  /** Bytes outside the operands and the stream sites never change. */
  predicate Keeps(l: Layout, original: seq<Byte>, q: Private) {
    && |q.rom| == |original|
    && forall p: nat :: p < |original| && Foreign(l, q.stream, p) ==> q.rom[p] == original[p]
  }

  lemma WindowsKeep(l: Layout, rom: seq<Byte>, margin: nat, native: bool, p: nat)
    requires Laid(l.sites, |rom|) && p < |rom| && (l.valid ==> !Touched(l.sites, p))
    ensures FrameWindows(l, rom, margin, native)[p] == rom[p]
    ensures l.valid ==> Hook(rom, l.sites, margin, native)[p] == rom[p]
  {
    if l.valid {
      var patched := PokeSites(rom, l.sites, margin, false);
      PokeUntouched(rom, l.sites, margin, false, p);
      PokeUntouched(patched, l.sites, if native then 0 else margin, true, p);
      PokeUntouched(rom, l.sites, if native then 0 else margin, true, p);
    }
  }

  lemma StepKeeps(l: Layout, original: seq<Byte>, q: Private, op: Op)
    requires Fits(l, q) && Keeps(l, original, q)
    ensures Keeps(l, original, Step(l, q, op))
  {
    var r := Step(l, q, op);
    var rom := if op.Frame? then FrameWindows(l, q.rom, op.margin, op.native) else q.rom;
    if op.Frame? && r.stream == Present {
      PatchStreamAt(rom, l.body, StreamExtra(l.enabled, op.margin), StreamExtra(l.enabled, op.margin));
    }
    forall p: nat | p < |original| && Foreign(l, r.stream, p)
      ensures r.rom[p] == original[p]
    {
      assert Foreign(l, q.stream, p);
      WindowsKeep(l, q.rom, op.margin, op.native, p);
    }
  }

  lemma {:induction false} RunKeeps(l: Layout, original: seq<Byte>, q: Private, ops: seq<Op>)
    requires Fits(l, q) && Keeps(l, original, q)
    ensures Keeps(l, original, Run(l, q, ops))
    decreases |ops|
  {
    if ops != [] {
      StepKeeps(l, original, q, ops[0]);
      RunKeeps(l, original, Step(l, q, ops[0]), ops[1..]);
    }
  }

  /** At margin 0 every operand gets its scanned word back. */
  lemma ZeroRestoresWord(rom: seq<Byte>, sites: seq<Site>, native: bool, k: nat)
    requires Laid(sites, |rom|) && k < |sites|
    ensures WordAt(PatchWindows(rom, sites, 0, native), sites[k].operand) == sites[k].base
  {
    var patched := PokeSites(rom, sites, 0, false);
    PokeWord(rom, sites, 0, false, k);
    PokeWord(patched, sites, 0, true, k);
  }

  lemma EqualWords(a: seq<Byte>, b: seq<Byte>, at: nat)
    requires at + 1 < |a| == |b| && WordAt(a, at) == WordAt(b, at)
    ensures a[at] == b[at] && a[at + 1] == b[at + 1]
  {
  }

  /** A window patch at margin 0 restores every byte but those the stream patch owns. */
  lemma ZeroWindows(l: Layout, original: seq<Byte>, q: Private, native: bool, p: nat)
    requires Scans(l, original) && Fits(l, q) && Keeps(l, original, q) && p < |original|
    requires q.stream == Present ==> !InStream(l.body, p)
    ensures FrameWindows(l, q.rom, 0, native)[p] == original[p]
  {
    if l.valid && Touched(l.sites, p) {
      var k :| 0 <= k < |l.sites| && (l.sites[k].operand == p || l.sites[k].operand + 1 == p);
      ZeroRestoresWord(q.rom, l.sites, native, k);
      EqualWords(FrameWindows(l, q.rom, 0, native), original, l.sites[k].operand);
    } else {
      WindowsKeep(l, q.rom, 0, native, p);
    }
  }

  // ----- when the stream patcher adopts a ROM

  function FirstFrame(ops: seq<Op>): Option<Op>
    decreases |ops|
  {
    if ops == [] then None else if ops[0].Frame? then Some(ops[0]) else FirstFrame(ops[1..])
  }

  /** The stream's signature, in the scanned ROM as a first frame's window patch leaves it. */
  predicate AdoptsAt(l: Layout, original: seq<Byte>, margin: nat, native: bool)
    requires Laid(l.sites, |original|)
  {
    Signature(FrameWindows(l, original, margin, native), l.body)
  }

  /** Whether the stream patcher owns its four sites after a run: its first frame decides. */
  predicate Adopts(l: Layout, original: seq<Byte>, ops: seq<Op>)
    requires Laid(l.sites, |original|)
  {
    match FirstFrame(ops)
    case None => false
    case Some(f) => AdoptsAt(l, original, f.margin, f.native)
  }

  /** A frame's window patch forgets what earlier entries to the routine did. */
  lemma WindowsForget(l: Layout, original: seq<Byte>, q: Private, margin: nat, native: bool)
    requires Fits(l, q) && Scaled(l.sites) && Keeps(l, original, q) && q.stream == Unscanned
    ensures FrameWindows(l, q.rom, margin, native) == FrameWindows(l, original, margin, native)
  {
    var a, b := FrameWindows(l, q.rom, margin, native), FrameWindows(l, original, margin, native);
    forall p: nat | p < |original|
      ensures a[p] == b[p]
    {
      if l.valid && Touched(l.sites, p) {
        var k :| 0 <= k < |l.sites| && (l.sites[k].operand == p || l.sites[k].operand + 1 == p);
        TierParity(q.rom, l.sites, margin, native, k);
        TierParity(original, l.sites, margin, native, k);
        EqualWords(a, b, l.sites[k].operand);
      } else {
        WindowsKeep(l, q.rom, margin, native, p);
        WindowsKeep(l, original, margin, native, p);
        assert Foreign(l, q.stream, p);
      }
    }
  }

  lemma {:induction false} StreamStays(l: Layout, q: Private, ops: seq<Op>)
    requires Fits(l, q) && q.stream != Unscanned
    ensures Run(l, q, ops).stream == q.stream
    decreases |ops|
  {
    if ops != [] {
      StreamStays(l, Step(l, q, ops[0]), ops[1..]);
    }
  }

  lemma {:induction false} RunAdopts(l: Layout, original: seq<Byte>, q: Private, ops: seq<Op>)
    requires Fits(l, q) && Scaled(l.sites) && Keeps(l, original, q) && q.stream == Unscanned
    ensures Run(l, q, ops).stream == Present <==> Adopts(l, original, ops)
    decreases |ops|
  {
    if ops != [] {
      var next := Step(l, q, ops[0]);
      if ops[0].Frame? {
        WindowsForget(l, original, q, ops[0].margin, ops[0].native);
        StreamStays(l, next, ops[1..]);
      } else {
        StepKeeps(l, original, q, ops[0]);
        RunAdopts(l, original, next, ops[1..]);
      }
    }
  }

  /** The whole effect of the last of several frames, on the scanned ROM's own terms. */
  lemma LastFrameAdopts(l: Layout, original: seq<Byte>, ops: seq<Op>, f: Op)
    requires Laid(l.sites, |original|) && Scaled(l.sites)
    ensures Step(l, Run(l, Private(original, Unscanned), ops), f).stream == Present <==> Adopts(l, original, ops + [f])
  {
    RunSnoc(l, Private(original, Unscanned), ops, f);
    RunAdopts(l, original, Private(original, Unscanned), ops + [f]);
  }

  lemma ZeroFrameFrom(l: Layout, original: seq<Byte>, q: Private, native: bool)
    requires Scans(l, original) && Fits(l, q) && Keeps(l, original, q)
    ensures var r := Step(l, q, Frame(0, native));
            r.rom == original <==> (r.stream == Present ==> StreamOriginal(original, l.body))
  {
    var rom := FrameWindows(l, q.rom, 0, native);
    var r := Step(l, q, Frame(0, native));
    if r.stream == Present {
      PatchStreamAt(rom, l.body, 0, 0);
    }
    forall p: nat | p < |original| && (r.stream == Present ==> !InStream(l.body, p))
      ensures r.rom[p] == original[p]
    {
      ZeroWindows(l, original, q, native, p);
    }
    if r.stream == Present && StreamOriginal(original, l.body) {
      assert forall p :: 0 <= p < |original| ==> r.rom[p] == original[p];
    }
  }

  /** Reversibility. After any sequence of frames and routine entries, under any margins and any
      running objects, one more frame at margin 0 makes the ROM byte-identical to the scanned one
      exactly when the stream patcher has not adopted it, or the scanned ROM already held the
      stream's original bytes. Whether it adopts is a matter of the scanned ROM and of the first
      frame alone. */
  lemma ZeroFrameRestores(l: Layout, original: seq<Byte>, ops: seq<Op>, native: bool)
    requires Scans(l, original)
    ensures Restored(l, original, ops, native)
       <==> (Adopts(l, original, ops + [Frame(0, native)]) ==> StreamOriginal(original, l.body))
  {
    RunKeeps(l, original, Private(original, Unscanned), ops);
    LastFrameAdopts(l, original, ops, Frame(0, native));
    ZeroFrameFrom(l, original, Run(l, Private(original, Unscanned), ops), native);
  }

  /** One more frame at margin 0, after a run. */
  predicate Restored(l: Layout, original: seq<Byte>, ops: seq<Op>, native: bool)
    requires Laid(l.sites, |original|)
  {
    Step(l, Run(l, Private(original, Unscanned), ops), Frame(0, native)).rom == original
  }

  /** No first frame, whatever its margin, makes a foreign ROM look like the stream's. */
  ghost predicate NeverMistaken(l: Layout, original: seq<Byte>)
    requires Laid(l.sites, |original|)
  {
    StreamOriginal(original, l.body) || forall margin: nat, native: bool :: !AdoptsAt(l, original, margin, native)
  }

  lemma FirstOfTwo(l: Layout, original: seq<Byte>, f: Op, g: Op)
    requires Laid(l.sites, |original|) && f.Frame?
    ensures Adopts(l, original, [f] + [g]) == AdoptsAt(l, original, f.margin, f.native)
  {
    assert ([f] + [g])[0] == f;
  }

  /** Every run is undone by a frame at margin 0 exactly when the stream patcher is never mistaken. */
  lemma RestoredForEveryRun(l: Layout, original: seq<Byte>)
    requires Scans(l, original)
    ensures (forall ops, native :: Restored(l, original, ops, native)) <==> NeverMistaken(l, original)
  {
    if NeverMistaken(l, original) {
      forall ops, native: bool
        ensures Restored(l, original, ops, native)
      {
        ZeroFrameRestores(l, original, ops, native);
      }
    } else {
      var margin: nat, native: bool :| AdoptsAt(l, original, margin, native);
      var f := Frame(margin, native);
      FirstOfTwo(l, original, f, Frame(0, native));
      ZeroFrameRestores(l, original, [f], native);
      assert !Restored(l, original, [f], native);
    }
  }

  /** Where the stream is found, its bytes were original: they are the signature's, and no operand
      of the window table had been patched over them. */
  predicate StreamHonest(l: Layout, original: seq<Byte>, q: Private) {
    q.stream == Present ==> StreamOriginal(original, l.body)
  }

  ghost predicate Apart(l: Layout) {
    forall p: nat :: InStream(l.body, p) ==> !Touched(l.sites, p)
  }

  lemma {:induction false} RunHonest(l: Layout, original: seq<Byte>, q: Private, ops: seq<Op>)
    requires Fits(l, q) && Keeps(l, original, q) && StreamHonest(l, original, q) && Apart(l)
    ensures StreamHonest(l, original, Run(l, q, ops))
    decreases |ops|
  {
    if ops != [] {
      StepKeeps(l, original, q, ops[0]);
      StepHonest(l, original, q, ops[0]);
      RunHonest(l, original, Step(l, q, ops[0]), ops[1..]);
    }
  }

  lemma StepHonest(l: Layout, original: seq<Byte>, q: Private, op: Op)
    requires Fits(l, q) && Keeps(l, original, q) && StreamHonest(l, original, q) && Apart(l)
    ensures StreamHonest(l, original, Step(l, q, op))
  {
    var r := Step(l, q, op);
    if op.Frame? && q.stream == Unscanned && r.stream == Present {
      var rom := FrameWindows(l, q.rom, op.margin, op.native);
      SignatureIsOriginal(rom, l.body);
      forall p | 0 <= p < |original| && p >= l.body && InStream(l.body, p)
        ensures original[p] == StreamByte(p - l.body)
      {
        WindowsKeep(l, q.rom, op.margin, op.native, p);
        assert Foreign(l, q.stream, p);
      }
    }
  }

  /** So the ROM is always restored when no scanned operand lies on the stream's four sites. */
  lemma DisjointRestores(l: Layout, original: seq<Byte>, ops: seq<Op>, native: bool)
    requires Scans(l, original) && Apart(l)
    ensures Restored(l, original, ops, native)
  {
    var start := Private(original, Unscanned);
    RunKeeps(l, original, start, ops);
    RunHonest(l, original, start, ops);
    StepHonest(l, original, Run(l, start, ops), Frame(0, native));
    ZeroFrameFrom(l, original, Run(l, start, ops), native);
  }

  // ----- one host frame

  function Entries(margin: nat, natives: seq<bool>): (ops: seq<Op>)
    ensures |ops| == |natives| && forall i :: 0 <= i < |ops| ==> ops[i] == Activate(margin, natives[i])
  {
    seq(|natives|, i requires 0 <= i < |natives| => Activate(margin, natives[i]))
  }

  /** What operand s holds while `native` tells whether the running object is a controller. */
  function Expected(s: Site, native: bool, margin: nat): Word {
    Helper(s, InRoutine(s) && native, margin)
  }

  function ByteOf(w: Word, high: bool): Byte {
    if high then w / 0x100 else w % 0x100
  }

  /** The stream patch writes nothing of operand s, or just what the helpers return. */
  predicate StreamAgrees(l: Layout, s: Site, native: bool, margin: nat) {
    var extra := StreamExtra(l.enabled, margin);
    && (InStream(l.body, s.operand) ==>
          StreamValue(l.body, extra, s.operand) == ByteOf(Expected(s, native, margin), false))
    && (InStream(l.body, s.operand + 1) ==>
          StreamValue(l.body, extra, s.operand + 1) == ByteOf(Expected(s, native, margin), true))
  }

  lemma PatchedWord(rom: seq<Byte>, body: nat, extra: Word, at: nat, w: Word)
    requires body + BODY_SIZE <= |rom| && at + 1 < |rom| && WordAt(rom, at) == w
    ensures WordAt(PatchStream(rom, body, extra, extra), at) == w
       <==> && (InStream(body, at) ==> StreamValue(body, extra, at) == ByteOf(w, false))
            && (InStream(body, at + 1) ==> StreamValue(body, extra, at + 1) == ByteOf(w, true))
  {
    var r := PatchStream(rom, body, extra, extra);
    PatchStreamByte(rom, body, extra, at);
    PatchStreamByte(rom, body, extra, at + 1);
    SameWord(r, at, w);
    SameWord(rom, at, w);
  }

  lemma WindowsWord(l: Layout, rom: seq<Byte>, margin: nat, native: bool, k: nat)
    requires Laid(l.sites, |rom|) && l.valid && Scaled(l.sites) && k < |l.sites|
    ensures WordAt(FrameWindows(l, rom, margin, native), l.sites[k].operand) == Expected(l.sites[k], native, margin)
  {
    TierParity(rom, l.sites, margin, native, k);
  }

  lemma AgreesAt(l: Layout, rom: seq<Byte>, s: Site, native: bool, margin: nat)
    requires l.body + BODY_SIZE <= |rom| && s.operand + 1 < |rom|
    requires WordAt(rom, s.operand) == Expected(s, native, margin)
    ensures var extra := StreamExtra(l.enabled, margin);
            WordAt(PatchStream(rom, l.body, extra, extra), s.operand) == Expected(s, native, margin)
            <==> StreamAgrees(l, s, native, margin)
  {
    PatchedWord(rom, l.body, StreamExtra(l.enabled, margin), s.operand, Expected(s, native, margin));
  }

  lemma FrameWord(l: Layout, q: Private, margin: nat, native: bool, k: nat)
    requires Fits(l, q) && l.valid && Scaled(l.sites) && k < |l.sites|
    ensures var r := Step(l, q, Frame(margin, native));
            WordAt(r.rom, l.sites[k].operand) == Expected(l.sites[k], native, margin)
            <==> (r.stream == Present ==> StreamAgrees(l, l.sites[k], native, margin))
  {
    WindowsWord(l, q.rom, margin, native, k);
    if Step(l, q, Frame(margin, native)).stream == Present {
      AgreesAt(l, FrameWindows(l, q.rom, margin, native), l.sites[k], native, margin);
    }
  }

  lemma SameWord(rom: seq<Byte>, at: nat, w: Word)
    requires at + 1 < |rom|
    ensures WordAt(rom, at) == w <==> rom[at] == ByteOf(w, false) && rom[at + 1] == ByteOf(w, true)
  {
  }

  function Latest(native: bool, natives: seq<bool>): bool {
    if natives == [] then native else natives[|natives| - 1]
  }

  lemma {:induction false} EntriesParity(l: Layout, q: Private, margin: nat, native: bool, natives: seq<bool>, k: nat)
    requires Fits(l, q) && l.valid && Scaled(l.sites) && k < |l.sites|
    ensures var r := Run(l, q, Entries(margin, natives));
            WordAt(r.rom, l.sites[k].operand) == Expected(l.sites[k], Latest(native, natives), margin)
            <==> (InRoutine(l.sites[k]) && natives != [])
                 || WordAt(q.rom, l.sites[k].operand) == Expected(l.sites[k], native, margin)
    decreases |natives|
  {
    if natives != [] {
      var n := |natives| - 1;
      EntriesParity(l, q, margin, native, natives[..n], k);
      assert Entries(margin, natives) == Entries(margin, natives[..n]) + [Activate(margin, natives[n])];
      RunSnoc(l, q, Entries(margin, natives[..n]), Activate(margin, natives[n]));
      var before := Run(l, q, Entries(margin, natives[..n]));
      TierParity(before.rom, l.sites, margin, natives[n], k);
    }
  }

  /** Tier parity through a frame, after any run. However often the activation routine is entered
      during the frame, and whatever object runs it each time, an operand is what the generated
      helpers return for the running object exactly when the stream patcher has not adopted the
      ROM, or the hook has rewritten the operand since, or the stream's bytes agree with it. */
  lemma FrameParity(l: Layout, original: seq<Byte>, ops: seq<Op>, margin: nat, native: bool, natives: seq<bool>, k: nat)
    requires Laid(l.sites, |original|) && l.valid && Scaled(l.sites) && k < |l.sites|
    ensures var f, s := Frame(margin, native), l.sites[k];
            var r := Run(l, Step(l, Run(l, Private(original, Unscanned), ops), f), Entries(margin, natives));
            WordAt(r.rom, s.operand) == Expected(s, Latest(native, natives), margin)
            <==> || !Adopts(l, original, ops + [f])
                 || (InRoutine(s) && natives != [])
                 || StreamAgrees(l, s, native, margin)
  {
    var q := Run(l, Private(original, Unscanned), ops);
    LastFrameAdopts(l, original, ops, Frame(margin, native));
    FrameWord(l, q, margin, native, k);
    EntriesParity(l, Step(l, q, Frame(margin, native)), margin, native, natives, k);
  }

  /** So the tiers agree on every operand, always, when no operand lies on the stream's sites. */
  lemma DisjointParity(l: Layout, original: seq<Byte>, ops: seq<Op>, margin: nat, native: bool, natives: seq<bool>, k: nat)
    requires Laid(l.sites, |original|) && l.valid && Scaled(l.sites) && k < |l.sites| && Apart(l)
    ensures var r := Run(l, Step(l, Run(l, Private(original, Unscanned), ops), Frame(margin, native)), Entries(margin, natives));
            WordAt(r.rom, l.sites[k].operand) == Expected(l.sites[k], Latest(native, natives), margin)
  {
    var s := l.sites[k];
    assert Touched(l.sites, s.operand) && Touched(l.sites, s.operand + 1);
    FrameParity(l, original, ops, margin, native, natives, k);
  }

  /** The one stream operand that is also a trigger constant, $0100: the tiers agree on it exactly
      when the stream is opted in and the margin is a whole number of columns, or at margin 0. */
  lemma RightOperandAgrees(l: Layout, s: Site, native: bool, margin: nat)
    requires s == Site(l.body + RIGHT_OPERAND, 0x100, 1) && !InRoutine(s)
    ensures StreamAgrees(l, s, native, margin) <==> (l.enabled && margin % 32 == 0) || margin % U16 == 0
  {
    var extra: int := StreamExtra(l.enabled, margin);
    SameBytes(Wrap(0x100 + extra), Wrap(0x100 + margin));
    assert StreamAgrees(l, s, native, margin) <==> Wrap(0x100 + extra) == Wrap(0x100 + margin);
    RightSums(l.enabled, margin);
  }

  lemma SameBytes(a: Word, b: Word)
    ensures a == b <==> ByteOf(a, false) == ByteOf(b, false) && ByteOf(a, true) == ByteOf(b, true)
  {
  }

  lemma SameModulo(a: int, b: int)
    ensures Wrap(a) == Wrap(b) <==> (a - b) % U16 == 0
  {
    assert a == a / U16 * U16 + Wrap(a) && b == b / U16 * U16 + Wrap(b);
    if (a - b) % U16 == 0 {
      assert a - b == (a - b) / U16 * U16;
    }
  }

  lemma RightSums(enabled: bool, margin: nat)
    ensures Wrap(0x100 + StreamExtra(enabled, margin)) == Wrap(0x100 + margin)
       <==> (enabled && margin % 32 == 0) || margin % U16 == 0
  {
    var extra: int := StreamExtra(enabled, margin);
    SameModulo(0x100 + extra, 0x100 + margin);
    if enabled && margin != 0 {
      WholeColumns(margin, extra);
    } else {
      SameModulo(margin, 0);
    }
  }

  /** How far rounding up to whole columns goes beyond the margin. */
  lemma RoundingStep(margin: nat) returns (d: nat)
    ensures (margin + 31) / 32 * 32 == margin + d && d < 32
    ensures d == 0 <==> margin % 32 == 0
  {
    d := if margin % 32 == 0 then 0 else 32 - margin % 32;
    var q := margin / 32;
    assert margin == 32 * q + margin % 32;
    assert (margin + 31) / 32 == if margin % 32 == 0 then q else q + 1;
  }

  lemma WholeColumns(margin: nat, extra: int)
    requires extra == Wrap((margin + 31) / 32 * 32)
    ensures (extra - margin) % U16 == 0 <==> margin % 32 == 0
    ensures margin % U16 == 0 ==> margin % 32 == 0
  {
    var d := RoundingStep(margin);
    var q := WrapParts(margin + d);
    WrapWhole(extra - margin, d, -q);
    WholeWords(margin);
  }

  lemma WholeWords(margin: nat)
    ensures margin % U16 == 0 ==> margin % 32 == 0
  {
    var q := margin / U16;
    assert margin == 32 * (0x800 * q) + margin % U16;
  }

  lemma {:induction false} RunSnoc(l: Layout, q: Private, ops: seq<Op>, op: Op)
    requires Fits(l, q)
    ensures Run(l, q, ops + [op]) == Step(l, Run(l, q, ops), op)
    decreases |ops|
  {
    if ops == [] {
      assert ops + [op] == [op];
      assert Run(l, Step(l, q, op), []) == Step(l, q, op);
    } else {
      assert (ops + [op])[0] == ops[0] && (ops + [op])[1..] == ops[1..] + [op];
      RunSnoc(l, Step(l, q, ops[0]), ops[1..], op);
    }
  }
}
