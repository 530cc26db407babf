/** Accounting of checkpoint storage: a ring of per-segment sizes and their running total
    (src/mmx_replay.c). */
module HistoryRing {
  import opened Bytes

  const SEGMENTS: nat := 360
  const MIB: nat := 1024 * 1024
  const HISTORY_LIMIT: nat := 256 * MIB

  /** `segment` is the newest segment ever started, `oldest` the first one not yet evicted;
      `current` counts the checkpoint bytes of the segment being recorded. */
  datatype Ring = Ring(oldest: nat, segment: nat, sizes: seq<nat>, bytes: nat, current: nat)

  /** history_limit(): a whole number of mebibytes from 2 to 256 lowers the default. */
  function HistoryLimit(mib: Option<nat>): (limit: nat)
    ensures 2 * MIB <= limit <= HISTORY_LIMIT
  {
    match mib
    case Some(n) => if 2 <= n <= 256 then n * MIB else HISTORY_LIMIT
    case None => HISTORY_LIMIT
  }

  function Sum(sizes: seq<nat>): nat {
    if sizes == [] then 0 else Sum(sizes[..|sizes| - 1]) + sizes[|sizes| - 1]
  }

  lemma {:induction false} SumUpdate(sizes: seq<nat>, k: nat, v: nat)
    requires k < |sizes|
    ensures Sum(sizes[k := v]) == Sum(sizes) - sizes[k] + v
  {
    var n := |sizes| - 1;
    var changed := sizes[k := v];
    if k == n {
      assert changed[..n] == sizes[..n];
    } else {
      assert changed[..n] == sizes[..n][k := v];
      SumUpdate(sizes[..n], k, v);
    }
  }

  lemma {:induction false} SumOfZeros(sizes: seq<nat>)
    requires forall k :: 0 <= k < |sizes| ==> sizes[k] == 0
    ensures Sum(sizes) == 0
  {
    if sizes != [] {
      SumOfZeros(sizes[..|sizes| - 1]);
    }
  }

  lemma {:induction false} SumOfOne(sizes: seq<nat>, k: nat)
    requires k < |sizes| && forall i :: 0 <= i < |sizes| && i != k ==> sizes[i] == 0
    ensures Sum(sizes) == sizes[k]
  {
    SumUpdate(sizes, k, 0);
    SumOfZeros(sizes[k := 0]);
  }

  function Slot(segment: nat): (k: nat)
    ensures k < SEGMENTS
  {
    segment % SEGMENTS
  }

  /** history_bytes is the sum of all slots. */
  predicate Accounted(g: Ring) {
    |g.sizes| == SEGMENTS && g.bytes == Sum(g.sizes)
  }

  lemma SlotWithinTotal(g: Ring, segment: nat)
    requires Accounted(g)
    ensures g.sizes[Slot(segment)] <= g.bytes
  {
    SumUpdate(g.sizes, Slot(segment), 0);
  }

  /** The first segment from `oldest` on that uses slot `k`. */
  function Owner(oldest: nat, k: nat): (s: nat)
    requires k < SEGMENTS
    ensures oldest <= s < oldest + SEGMENTS && Slot(s) == k
  {
    var s := oldest + (k - oldest) % SEGMENTS;
    assert Slot(s) == k by {
      assert s == k + SEGMENTS * ((s - k) / SEGMENTS) by {
        assert (s - k) % SEGMENTS == 0 by {
          assert (k - oldest) == SEGMENTS * ((k - oldest) / SEGMENTS) + (k - oldest) % SEGMENTS;
        }
      }
    }
    s
  }

  /** Segments closer together than the ring is long use different slots. */
  lemma SlotsDistinct(a: nat, b: nat)
    requires a <= b < a + SEGMENTS && Slot(a) == Slot(b)
    ensures a == b
  {
    assert b - a == SEGMENTS * (b / SEGMENTS - a / SEGMENTS);
  }

  lemma OwnerIs(oldest: nat, s: nat)
    requires oldest <= s < oldest + SEGMENTS
    ensures Owner(oldest, Slot(s)) == s
  {
    var t := Owner(oldest, Slot(s));
    if t <= s {
      SlotsDistinct(t, s);
    } else {
      SlotsDistinct(s, t);
    }
  }

  /** Only slots of segments from `oldest` to `newest` hold bytes. */
  predicate OnlyLive(sizes: seq<nat>, oldest: nat, newest: nat)
    requires |sizes| == SEGMENTS
  {
    forall k :: 0 <= k < SEGMENTS && sizes[k] != 0 ==> Owner(oldest, k) <= newest
  }

  /** Clearing the oldest segment's slot and moving on. */
  function Evicted(g: Ring): (e: Ring)
    requires Accounted(g)
    ensures Accounted(e)
  {
    SlotWithinTotal(g, g.oldest);
    SumUpdate(g.sizes, Slot(g.oldest), 0);
    var k := Slot(g.oldest);
    g.(bytes := g.bytes - g.sizes[k], sizes := g.sizes[k := 0], oldest := g.oldest + 1)
  }

  lemma EvictedLive(g: Ring, newest: nat)
    requires Accounted(g) && OnlyLive(g.sizes, g.oldest, newest)
    ensures OnlyLive(Evicted(g).sizes, Evicted(g).oldest, newest)
  {
    var e := Evicted(g);
    forall k | 0 <= k < SEGMENTS && e.sizes[k] != 0
      ensures Owner(e.oldest, k) <= newest
    {
      var s := Owner(g.oldest, k);
      assert s != g.oldest;
      OwnerIs(e.oldest, s);
    }
  }

  function Charged(g: Ring, size: nat): (e: Ring)
    requires Accounted(g)
    ensures Accounted(e)
  {
    var k := Slot(g.segment);
    SumUpdate(g.sizes, k, g.sizes[k] + size);
    g.(current := g.current + size, bytes := g.bytes + size, sizes := g.sizes[k := g.sizes[k] + size])
  }

  lemma ChargedLive(g: Ring, size: nat)
    requires Accounted(g) && OnlyLive(g.sizes, g.oldest, g.segment)
    requires g.oldest <= g.segment < g.oldest + SEGMENTS
    ensures OnlyLive(Charged(g, size).sizes, g.oldest, g.segment)
  {
    OwnerIs(g.oldest, g.segment);
  }

  /** A segment that has just been made room for starts on an empty slot. */
  lemma FreshSlotIsEmpty(g: Ring)
    requires |g.sizes| == SEGMENTS
    requires 0 < g.segment && g.oldest <= g.segment < g.oldest + SEGMENTS
    requires OnlyLive(g.sizes, g.oldest, g.segment - 1)
    ensures g.sizes[Slot(g.segment)] == 0
  {
    OwnerIs(g.oldest, g.segment);
  }

  /** When only the current segment is left, it holds every accounted byte. */
  lemma LoneSegmentHoldsAll(g: Ring)
    requires Accounted(g) && OnlyLive(g.sizes, g.oldest, g.segment) && g.oldest == g.segment
    ensures g.bytes == g.sizes[Slot(g.segment)]
  {
    OwnerIs(g.oldest, g.segment);
    forall k | 0 <= k < SEGMENTS && k != Slot(g.segment)
      ensures g.sizes[k] == 0
    {
    }
    SumOfOne(g.sizes, Slot(g.segment));
  }
}
