/** The emulated machine, as far as the recorder and the player touch it: a deterministic frame
    step, whole-machine checkpoints, the frame counter and the four digested memories. */
module Machine {
  import opened Bytes
  import opened ReplayLog
  import opened Fnv

  datatype Machine<!S> = Machine(
    step: (S, nat, Settings) -> S,
    save: S -> seq<Byte>,
    load: seq<Byte> -> Option<S>,
    frame: S -> nat,
    wram: S -> seq<Byte>,
    cgram: S -> seq<Byte>,
    oam: S -> seq<Byte>,
    highOam: S -> seq<Byte>,
    vram: S -> seq<Byte>)

  /** What is assumed of the engine: a checkpoint restores the machine it was taken from, and a
      frame advances the 32-bit frame counter by one. */
  ghost predicate Faithful<S(!new)>(m: Machine<S>) {
    && (forall s :: m.load(m.save(s)) == Some(s))
    && (forall s :: m.frame(s) < U32)
    && (forall s, word, settings ::
          m.frame(m.step(s, word, settings)) == NextFrame(m.frame(s)))
  }

  function NextFrame(frame: nat): nat {
    (frame + 1) % U32
  }

  /** The digest record of a machine: the recorder's worker digests sprite memory as the one
      buffer that MmxReplayEnd concatenates. */
  function ResultOf<S>(m: Machine<S>, s: S): Line {
    Result(m.frame(s), Digest(m.wram(s)), Digest(m.cgram(s)),
           Digest(m.oam(s) + m.highOam(s)), Digest(m.vram(s)))
  }

  /** hashes(): the player's digests of the same machine, sprite memory in two parts. */
  method Hashes<S>(m: Machine<S>, s: S) returns (wram: nat, cgram: nat, oam: nat, vram: nat)
    ensures Result(m.frame(s), wram, cgram, oam, vram) == ResultOf(m, s)
    ensures wram == Digest(m.wram(s)) && cgram == Digest(m.cgram(s)) && vram == Digest(m.vram(s))
    ensures oam == Fold(Digest(m.oam(s)), m.highOam(s))
  {
    var w := HashContinue(OFFSET_BASIS, m.wram(s));
    var c := HashContinue(OFFSET_BASIS, m.cgram(s));
    var o := HashContinue(OFFSET_BASIS, m.oam(s));
    o := HashContinue(o, m.highOam(s));
    var v := HashContinue(OFFSET_BASIS, m.vram(s));
    FoldJoin(OFFSET_BASIS, m.oam(s), m.highOam(s));
    wram, cgram, oam, vram := w, c, o, v;
  }
}
