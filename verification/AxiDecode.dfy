/** Which exit of the router an AXI burst may use. Burst addresses follow section A3.4 of ARM IHI 0022. */
module AxiDecode {
  import opened Platform
  import opened Rings

  datatype Burst = Burst(id: nat, addr: nat, len: nat, size: nat, burst: nat)

  /** A burst that fits the wires: a 32-bit address, up to 256 beats of up to 128 bytes. */
  predicate OnWires(b: Burst) { b.addr < TOP && b.len < 0x100 && b.size < 8 }

  const INCR: nat := 1

  /** The regions behind the two exits, and the largest beat of the bus as a power of two. */
  datatype Exits = Exits(dram: Region, low: seq<Region>, maxSize: nat)

  datatype Exit = Dram | Low | Neither

  ghost predicate ExitsOk(e: Exits) {
    && e.maxSize < 8 && WellFormed(e.dram) && (forall k :: 0 <= k < |e.low| ==> WellFormed(e.low[k]))
    && forall k :: 0 <= k < |e.low| ==> Apart(e.dram, e.low[k])
  }

  const LOW_NAMES := ["boot_rom", "linux_boot_rom", "sram"]

  /** The exits of a whole platform, which must have the regions that the router names. */
  function ExitsOf(c: Config, maxSize: nat): Exits
    requires Named(c.regions, "main_ram")
    requires forall k :: 0 <= k < 3 ==> Named(c.regions, LOW_NAMES[k])
  {
    Exits(Find(c.regions, "main_ram"), seq(3, k requires 0 <= k < 3 => Find(c.regions, LOW_NAMES[k])), maxSize)
  }

  lemma PlatformExits(c: Config, maxSize: nat)
    requires Verdict(c).None? && maxSize < 8
    requires forall k :: 0 <= k < 3 ==> Named(c.regions, LOW_NAMES[k])
    ensures Named(c.regions, "main_ram") && ExitsOk(ExitsOf(c, maxSize))
  {
    hide Distinct, FirstProblem, WellFormed, PagesFit, PlicFits, Apart;
    AcceptedRegions(c);
    var e := ExitsOf(c, maxSize);
    forall k | 0 <= k < 3 ensures WellFormed(e.low[k]) && Apart(e.dram, e.low[k]) {
      assert e.low[k] == Find(c.regions, LOW_NAMES[k]) && LOW_NAMES[k] != "main_ram";
      FoundApart(c.regions, e.dram, e.low[k]);
    }
  }

  lemma FoundApart(rs: seq<Region>, a: Region, b: Region)
    requires Disjoint(rs) && a in rs && b in rs && a != b
    ensures Apart(a, b)
  {
  }

  // ------------------------------------------------------------------- decoding

  const TWO33: nat := 0x2_0000_0000

  function Beats(b: Burst): nat { (b.len + 1) % 0x200 }

  function Span(b: Burst, maxSize: nat): nat { Beats(b) * Pow2(if b.size < maxSize then b.size else maxSize) % TWO33 }

  function LastAddress(b: Burst, maxSize: nat): nat { (b.addr + Span(b, maxSize) + TWO33 - 1) % TWO33 }

  predicate Inside(b: Burst, r: Region, permitted: bool, maxSize: nat) {
    && permitted && b.burst == INCR && b.size <= maxSize
    && b.addr >= r.origin && LastAddress(b, maxSize) < r.origin + r.size
  }

  predicate Permits(r: Region, write: bool) { if write then r.attributes.writable else r.attributes.readable }

  predicate Hits(b: Burst, r: Region, write: bool, maxSize: nat) { Inside(b, r, Permits(r, write), maxSize) }

  predicate HitsLow(e: Exits, b: Burst, write: bool) {
    exists k :: 0 <= k < |e.low| && Hits(b, e.low[k], write, e.maxSize)
  }

  /** The memory exit is asked first, then the low one. */
  function ExitOf(e: Exits, b: Burst, write: bool): Exit {
    if Hits(b, e.dram, write, e.maxSize) then Dram else if HitsLow(e, b, write) then Low else Neither
  }

  // ------------------------------------------------- the bytes of an incrementing burst

  function Width(b: Burst): nat { Pow2(b.size) }
  function Aligned(b: Burst): int { b.addr / Width(b) * Width(b) }
  function BeatAddress(b: Burst, n: nat): int { if n == 0 then b.addr else Aligned(b) + n * Width(b) }

  /** Beat n transfers from its address to the end of its aligned unit. */
  predicate Transfers(b: Burst, n: nat, x: nat) { BeatAddress(b, n) <= x < Aligned(b) + (n + 1) * Width(b) }

  ghost predicate Touches(b: Burst, x: nat) { exists n: nat :: n <= b.len && Transfers(b, n, x) }

  function PastLast(b: Burst): int { Aligned(b) + (b.len + 1) * Width(b) }

  lemma Product(a: nat, b: nat, c: nat) requires a <= b ensures a * c <= b * c {}

  lemma AlignedBelow(b: Burst)
    ensures Aligned(b) == b.addr - b.addr % Width(b) && Aligned(b) + Width(b) > b.addr
  {
    assert b.addr == b.addr / Width(b) * Width(b) + b.addr % Width(b);
  }

  /** The bytes of a burst are the interval from its address to the end of its last aligned unit. */
  lemma BurstIsInterval(b: Burst, x: nat)
    ensures Touches(b, x) <==> b.addr <= x < PastLast(b)
  {
    var w, m := Width(b), Aligned(b);
    AlignedBelow(b);
    if n: nat :| n <= b.len && Transfers(b, n, x) {
      Product(n + 1, b.len + 1, w);
      if n > 0 { Product(1, n, w); }
    }
    if b.addr <= x < PastLast(b) {
      var d := x - m;
      var n := d / w;
      QuotientNat(d, w);
      assert d == n * w + d % w;
      assert (n + 1) * w == n * w + w;
      if n > b.len { Product(b.len + 1, n, w); }
      assert Transfers(b, n, x);
    }
  }

  lemma WidthBound(size: nat)
    requires size < 8
    ensures Pow2(size) <= 0x80
  {
    assert Pow2(3) == 8;
    assert Pow2(7) == 0x80;
    if size < 7 { PowersGrow(size, 7); }
  }

  /** The decoder's address of the last byte neither wraps nor differs from the plain sum. */
  lemma SpanIsExact(b: Burst, maxSize: nat)
    requires OnWires(b) && b.size <= maxSize
    ensures Span(b, maxSize) == (b.len + 1) * Width(b) && Span(b, maxSize) <= 0x8000
    ensures LastAddress(b, maxSize) == b.addr + (b.len + 1) * Width(b) - 1
  {
    WidthBound(b.size);
    var w := Width(b);
    Product(b.len + 1, 0x100, w);
    Product(1, b.len + 1, w);
    var span := (b.len + 1) * w;
    ModOf(span, 0, span, TWO33);
    ModOf(b.addr + span + TWO33 - 1, 1, b.addr + span - 1, TWO33);
  }

  /** A burst hits a region exactly when it is an incrementing one, permitted there and of a size the bus
      has, all its bytes lie in the region, and so does the byte that is further from its last byte by as
      much as its address is from alignment. */
  lemma HitsExact(b: Burst, r: Region, write: bool, maxSize: nat)
    requires OnWires(b) && b.size <= maxSize
    ensures Hits(b, r, write, maxSize) <==>
            && Permits(r, write) && b.burst == INCR
            && (forall x: nat :: Touches(b, x) ==> Contains(r, x))
            && PastLast(b) - 1 + b.addr % Width(b) < End(r)
  {
    hide Touches, Span;
    SpanIsExact(b, maxSize);
    AlignedBelow(b);
    Product(1, b.len + 1, Width(b));
    forall x: nat ensures Touches(b, x) <==> b.addr <= x < PastLast(b) { BurstIsInterval(b, x); }
    if forall x: nat :: Touches(b, x) ==> Contains(r, x) {
      assert Touches(b, b.addr);
    }
  }

  /** An aligned burst hits a region exactly when it is permitted there and all its bytes lie in it. */
  lemma AlignedHitsExact(b: Burst, r: Region, write: bool, maxSize: nat)
    requires OnWires(b) && b.size <= maxSize && b.addr % Width(b) == 0
    ensures Hits(b, r, write, maxSize) <==>
            Permits(r, write) && b.burst == INCR && forall x: nat :: Touches(b, x) ==> Contains(r, x)
  {
    hide Touches, Hits;
    HitsExact(b, r, write, maxSize);
    AlignedBelow(b);
    BurstIsInterval(b, PastLast(b) - 1);
    Product(1, b.len + 1, Width(b));
  }

  const LAST_BYTES := Burst(0, 0xffff_fff1, 0, 4, INCR)
  const UPPER_HALF := Region("main_ram", 0x8000_0000, 0x8000_0000,
                             Attributes(true, true, true, true, false, "none", "none"))

  /** An unaligned burst may be refused although all its bytes lie in a permitted region. */
  lemma UnalignedRefused(x: nat)
    ensures OnWires(LAST_BYTES) && Permits(UPPER_HALF, false)
    ensures Touches(LAST_BYTES, x) ==> Contains(UPPER_HALF, x)
    ensures !Hits(LAST_BYTES, UPPER_HALF, false, 4)
  {
    hide Touches, Hits;
    assert Pow2(4) == 16;
    BurstIsInterval(LAST_BYTES, x);
    HitsExact(LAST_BYTES, UPPER_HALF, false, 4);
  }

  /** An exit is chosen only for a burst all of whose bytes lie in one region behind it that permits the
      access, inside the 32-bit address space. */
  lemma ChosenInside(e: Exits, b: Burst, write: bool)
    requires ExitsOk(e) && OnWires(b) && ExitOf(e, b, write) != Neither
    ensures b.burst == INCR && b.size <= e.maxSize
    ensures exists r :: (if ExitOf(e, b, write) == Dram then r == e.dram else r in e.low) && Permits(r, write)
                        && forall x: nat :: Touches(b, x) ==> Contains(r, x) && x < TOP
  {
    hide Touches, WellFormed, Permits, Span;
    var r :| (if ExitOf(e, b, write) == Dram then r == e.dram else r in e.low) && Hits(b, r, write, e.maxSize);
    EndsBelow(e, r);
    HitsExact(b, r, write, e.maxSize);
    forall x: nat | Touches(b, x) ensures Contains(r, x) && x < TOP { }
  }

  lemma EndsBelow(e: Exits, r: Region)
    requires ExitsOk(e) && (r == e.dram || r in e.low)
    ensures End(r) <= TOP
  {
  }

  lemma HitStartsInside(b: Burst, r: Region, write: bool, maxSize: nat)
    requires OnWires(b) && Hits(b, r, write, maxSize)
    ensures Contains(r, b.addr)
  {
    SpanIsExact(b, maxSize);
    Product(1, b.len + 1, Width(b));
  }

  lemma ApartHits(b: Burst, r: Region, r': Region, write: bool, write': bool, maxSize: nat)
    requires OnWires(b) && Apart(r, r') && Hits(b, r, write, maxSize)
    ensures !Hits(b, r', write', maxSize)
  {
    hide Hits;
    HitStartsInside(b, r, write, maxSize);
    if Hits(b, r', write', maxSize) { HitStartsInside(b, r', write', maxSize); }
  }

  /** No burst hits regions behind both exits, so the order in which they are asked does not matter. */
  lemma NeverBoth(e: Exits, b: Burst, write: bool, write': bool)
    requires ExitsOk(e) && OnWires(b)
    ensures !(Hits(b, e.dram, write, e.maxSize) && HitsLow(e, b, write'))
  {
    hide Hits, Apart, WellFormed;
    if Hits(b, e.dram, write, e.maxSize) {
      forall k | 0 <= k < |e.low| ensures !Hits(b, e.low[k], write', e.maxSize) {
        ApartHits(b, e.dram, e.low[k], write, write', e.maxSize);
      }
    }
  }

  /** Every byte of an incrementing burst lies in the region, which lets the access through. */
  ghost predicate Serves(r: Region, b: Burst, write: bool) {
    && (if write then r.attributes.writable else r.attributes.readable)
    && b.burst == INCR && forall x: nat :: Touches(b, x) ==> r.origin <= x < r.origin + r.size
  }

  lemma HitsServes(b: Burst, r: Region, write: bool, maxSize: nat)
    requires OnWires(b) && b.size <= maxSize && b.addr % Width(b) == 0
    ensures Hits(b, r, write, maxSize) <==> Serves(r, b, write)
  {
    hide Hits, Touches;
    AlignedHitsExact(b, r, write, maxSize);
    forall x: nat ensures Contains(r, x) <==> r.origin <= x < r.origin + r.size { }
  }

  /** Where an aligned burst no wider than the bus goes: to memory exactly when the memory region serves it, to the
      low exit exactly when one of the regions there does, and nowhere exactly when none does. */
  lemma ExitExact(e: Exits, b: Burst, write: bool)
    requires ExitsOk(e) && OnWires(b) && b.size <= e.maxSize && b.addr % Width(b) == 0
    ensures ExitOf(e, b, write) == Dram <==> Serves(e.dram, b, write)
    ensures ExitOf(e, b, write) == Low <==> exists k :: 0 <= k < |e.low| && Serves(e.low[k], b, write)
    ensures ExitOf(e, b, write) == Neither <==>
            !Serves(e.dram, b, write) && forall k :: 0 <= k < |e.low| ==> !Serves(e.low[k], b, write)
  {
    hide Hits, Serves, WellFormed, Apart;
    HitsServes(b, e.dram, write, e.maxSize);
    forall k | 0 <= k < |e.low| ensures Hits(b, e.low[k], write, e.maxSize) <==> Serves(e.low[k], b, write) {
      HitsServes(b, e.low[k], write, e.maxSize);
    }
    NeverBoth(e, b, write, write);
  }

  /** A burst wider than the bus, or of another kind than incrementing, goes nowhere. */
  lemma OthersRefused(e: Exits, b: Burst, write: bool)
    requires b.size > e.maxSize || b.burst != INCR
    ensures ExitOf(e, b, write) == Neither
  {
  }
}
