/** The platform description: what a configuration must satisfy to be accepted, and the attribute lookup
    generated from an accepted one. */
module Platform {
  import opened Rings
  import StableSort
  import opened Wrappers

  const TOP: int := 0x1_0000_0000
  const PAGE: int := 0x1000

  datatype Attributes = Attributes(
    readable: bool, writable: bool, executable: bool, cacheable: bool, device: bool, amo: string, reservability: string)
  datatype Region = Region(name: string, origin: int, size: int, attributes: Attributes)
  datatype Page = Page(name: string, origin: int, size: int)
  datatype SdCard = SdCard(dmaRegion: string, dmaDataWidth: int, mode: string, scratch: int, scratchSize: int)
  datatype Config = Config(
    addressWidth: int, regions: seq<Region>, pages: seq<Page>, numSources: int, plicIds: seq<int>, sd: SdCard)

  datatype Problem =
    | AddressWidth | RegionRange | RegionShape | RegionAttributes | DuplicateName | Overlap
    | NoCsrWindow | CsrWidth | CsrPage | PlicAllocation | NoMainRam | SdDma | SdScratch

  // ------------------------------------------------------ bit tests on numbers

  /** Bitwise and of two numbers. */
  function And(a: nat, b: nat): nat {
    if a == 0 then 0 else 2 * And(a / 2, b / 2) + if a % 2 == 1 && b % 2 == 1 then 1 else 0
  }

  function BitLength(n: nat): nat { if n == 0 then 0 else 1 + BitLength(n / 2) }

  ghost predicate PowerOfTwo(n: int) { exists k: nat :: n == Pow2(k) }

  lemma {:induction false} AndSelf(a: nat) ensures And(a, a) == a {
    if a > 0 { AndSelf(a / 2); }
  }

  lemma {:induction false} PowerClears(k: nat) ensures And(Pow2(k), Pow2(k) - 1) == 0 {
    if k > 0 {
      PowerClears(k - 1);
      assert (Pow2(k) - 1) / 2 == Pow2(k - 1) - 1;
    }
  }

  /** A number and its predecessor share no bit exactly when the number is a power of two. */
  lemma {:induction false} PowerOfTwoTest(n: nat)
    requires n > 0
    ensures And(n, n - 1) == 0 <==> PowerOfTwo(n)
  {
    if PowerOfTwo(n) {
      var k: nat :| n == Pow2(k);
      PowerClears(k);
    } else if n % 2 == 1 {
      assert n != Pow2(0);
      AndSelf(n / 2);
      assert (n - 1) / 2 == n / 2;
    } else {
      forall k: nat ensures n / 2 != Pow2(k) {
        assert n != Pow2(k + 1);
      }
      PowerOfTwoTest(n / 2);
      assert (n - 1) / 2 == n / 2 - 1;
    }
  }

  lemma {:induction false} PowerLength(k: nat) ensures BitLength(Pow2(k)) == k + 1 {
    if k > 0 { PowerLength(k - 1); }
  }

  lemma {:induction false} PowersGrow(j: nat, k: nat)
    requires j < k
    ensures 2 * Pow2(j) <= Pow2(k)
    decreases k
  {
    if j < k - 1 { PowersGrow(j, k - 1); }
  }

  // ------------------------------------------------------------------ regions

  function End(r: Region): int { r.origin + r.size }
  predicate Contains(r: Region, address: int) { r.origin <= address < End(r) }

  /** A range of the address space that a decoder of as many address bits as it needs can match exactly. */
  ghost predicate WellFormed(r: Region) {
    && 0 <= r.origin && End(r) <= TOP && PowerOfTwo(r.size) && r.origin % r.size == 0
    && (r.attributes.amo == "none" || r.attributes.amo == "arithmetic")
    && (r.attributes.reservability == "none" || r.attributes.reservability == "eventual")
  }

  function RegionProblem(r: Region): Option<Problem> {
    if r.size <= 0 || r.origin < 0 || r.origin + r.size > TOP then Some(RegionRange)
    else if And(r.size, r.size - 1) != 0 || r.origin % r.size != 0 then Some(RegionShape)
    else if r.attributes.amo != "none" && r.attributes.amo != "arithmetic" then Some(RegionAttributes)
    else if r.attributes.reservability != "none" && r.attributes.reservability != "eventual" then Some(RegionAttributes)
    else None
  }

  lemma RegionCheck(r: Region)
    ensures RegionProblem(r).None? <==> WellFormed(r)
  {
    hide And, Pow2;
    if r.size > 0 { PowerOfTwoTest(r.size); }
  }

  /** No address is in both. */
  predicate Apart(a: Region, b: Region) { End(a) <= b.origin || End(b) <= a.origin }

  lemma ApartMeans(a: Region, b: Region)
    requires a.size > 0 && b.size > 0
    ensures Apart(a, b) <==> forall x {:trigger Contains(a, x)} :: !(Contains(a, x) && Contains(b, x))
  {
    if !Apart(a, b) {
      var x := if a.origin < b.origin then b.origin else a.origin;
      assert Contains(a, x) && Contains(b, x);
    }
  }

  ghost predicate Distinct<T(!new)>(s: seq<T>) { forall i, j :: 0 <= i < j < |s| ==> s[i] != s[j] }

  ghost predicate Disjoint(rs: seq<Region>) { forall i, j :: 0 <= i < j < |rs| ==> Apart(rs[i], rs[j]) }

  function Names(rs: seq<Region>): seq<string> { seq(|rs|, i requires 0 <= i < |rs| => rs[i].name) }

  function OriginOf(r: Region): int { r.origin }

  predicate NeighboursApart(rs: seq<Region>) { forall k :: 0 <= k < |rs| - 1 ==> End(rs[k]) <= rs[k + 1].origin }

  lemma {:induction false} LaterApart(rs: seq<Region>, j: nat, k: nat)
    requires NeighboursApart(rs) && (forall i :: 0 <= i < |rs| ==> rs[i].size > 0) && j < k < |rs|
    ensures End(rs[j]) <= rs[k].origin
    decreases k
  {
    if j < k - 1 { LaterApart(rs, j, k - 1); }
  }

  /** In a list sorted by origin, comparing neighbours is comparing all pairs. */
  lemma NeighboursSuffice(rs: seq<Region>)
    requires StableSort.Ordered(rs, OriginOf) && forall i :: 0 <= i < |rs| ==> rs[i].size > 0
    ensures NeighboursApart(rs) <==> Disjoint(rs)
  {
    if NeighboursApart(rs) {
      forall j, k | 0 <= j < k < |rs| ensures Apart(rs[j], rs[k]) { LaterApart(rs, j, k); }
    }
    if Disjoint(rs) {
      forall k | 0 <= k < |rs| - 1 ensures End(rs[k]) <= rs[k + 1].origin {
        assert Apart(rs[k], rs[k + 1]) && OriginOf(rs[k]) <= OriginOf(rs[k + 1]);
      }
    }
  }

  lemma Twice<T>(s: seq<T>, i: nat, j: nat)
    requires i < j < |s| && s[i] == s[j]
    ensures multiset(s)[s[i]] >= 2
  {
    assert s == s[..i] + [s[i]] + s[i + 1..j] + [s[j]] + s[j + 1..];
  }

  lemma {:induction false} OnceAtMost<T(!new)>(s: seq<T>, x: T)
    requires Distinct(s)
    ensures multiset(s)[x] <= 1
    decreases |s|
  {
    if s != [] {
      var n := |s| - 1;
      OnceAtMost(s[..n], x);
      assert s == s[..n] + [s[n]];
      if x == s[n] { assert x !in s[..n] && x !in multiset(s[..n]); }
    }
  }

  /** Putting distinct regions in another order keeps them disjoint. */
  lemma DisjointAnyOrder(rs: seq<Region>, rs': seq<Region>)
    requires multiset(rs) == multiset(rs') && Distinct(rs) && Disjoint(rs)
    ensures Disjoint(rs') && Distinct(rs')
  {
    forall i, j | 0 <= i < j < |rs'| ensures Apart(rs'[i], rs'[j]) && rs'[i] != rs'[j] {
      if rs'[i] == rs'[j] {
        Twice(rs', i, j);
        OnceAtMost(rs, rs'[i]);
      }
      assert rs'[i] in multiset(rs') && rs'[j] in multiset(rs');
      assert rs'[i] in rs && rs'[j] in rs;
    }
  }

  lemma DistinctNames(rs: seq<Region>)
    requires Distinct(Names(rs))
    ensures Distinct(rs)
  {
    forall i, j | 0 <= i < j < |rs| ensures rs[i] != rs[j] { assert Names(rs)[i] != Names(rs)[j]; }
  }

  lemma DistinctAnyOrder(rs: seq<Region>, rs': seq<Region>)
    requires multiset(rs) == multiset(rs') && Distinct(rs)
    ensures Distinct(rs')
  {
    forall i, j | 0 <= i < j < |rs'| ensures rs'[i] != rs'[j] {
      if rs'[i] == rs'[j] {
        Twice(rs', i, j);
        OnceAtMost(rs, rs'[i]);
      }
    }
  }

  /** The check of sorted neighbours accepts exactly the pairwise disjoint regions. */
  lemma SortedNeighbours(rs: seq<Region>)
    requires Distinct(rs) && forall i :: 0 <= i < |rs| ==> rs[i].size > 0
    ensures NeighboursApart(StableSort.Sorted(rs, OriginOf)) <==> Disjoint(rs)
  {
    hide StableSort.Sorted, NeighboursApart, Disjoint, Distinct;
    var s := StableSort.Sorted(rs, OriginOf);
    StableSort.SortedKeepsAll(rs, OriginOf);
    forall i | 0 <= i < |s| ensures s[i].size > 0 {
      assert s[i] in multiset(s);
      assert s[i] in rs;
    }
    NeighboursSuffice(s);
    DistinctAnyOrder(rs, s);
    if Disjoint(rs) { DisjointAnyOrder(rs, s); }
    if Disjoint(s) { DisjointAnyOrder(s, rs); }
  }

  // -------------------------------------------------- counting distinct values

  lemma {:induction false} SetSize<T(!new)>(s: seq<T>)
    ensures |set x | x in s| <= |s|
    ensures |set x | x in s| == |s| <==> Distinct(s)
    decreases |s|
  {
    if s == [] {
      assert (set x | x in s) == {};
    } else {
      var n := |s| - 1;
      SetSize(s[..n]);
      assert s == s[..n] + [s[n]];
      assert (set x | x in s) == (set x | x in s[..n]) + {s[n]};
      if Distinct(s[..n]) && s[n] !in s[..n] {
        forall i, j | 0 <= i < j < |s| ensures s[i] != s[j] { assert s[i] == s[..n][i]; }
      }
      if Distinct(s) { assert s[n] !in s[..n]; }
      if s[n] in s[..n] { assert (set x | x in s[..n]) + {s[n]} == set x | x in s[..n]; }
    }
  }

  // ---------------------------------------------------------- whole description

  predicate Named(rs: seq<Region>, name: string) { exists k :: 0 <= k < |rs| && rs[k].name == name }

  function Find(rs: seq<Region>, name: string): Region
    requires Named(rs, name)
    ensures Find(rs, name) in rs && Find(rs, name).name == name
  {
    if rs[0].name == name then rs[0] else Find(rs[1..], name)
  }

  function CsrAddressWidth(size: nat): int { BitLength(size) - 1 - 2 }

  predicate InWindow(p: Page, csr: Region) {
    p.size == PAGE && (p.origin - csr.origin) % PAGE == 0 && csr.origin <= p.origin && p.origin + PAGE <= End(csr)
  }

  function Origins(pages: seq<Page>): seq<int> { seq(|pages|, i requires 0 <= i < |pages| => pages[i].origin) }

  ghost predicate PagesFit(pages: seq<Page>, csr: Region) {
    (forall i :: 0 <= i < |pages| ==> InWindow(pages[i], csr)) && Distinct(Origins(pages))
  }

  ghost predicate PlicFits(ids: seq<int>, sources: int) {
    Distinct(ids) && forall i :: 0 <= i < |ids| ==> 1 <= ids[i] <= sources
  }

  predicate DmaFits(sd: SdCard) { sd.dmaRegion == "main_ram" && sd.dmaDataWidth == 64 && sd.mode == "read+write" }

  predicate ScratchFits(sd: SdCard, main: Region) {
    && sd.scratch % 64 == 0 && sd.scratchSize >= 0x240
    && main.origin <= sd.scratch && sd.scratch + sd.scratchSize <= End(main)
  }

  function FirstProblem(rs: seq<Region>): Option<Problem> {
    if rs == [] then None
    else if RegionProblem(rs[0]).Some? then RegionProblem(rs[0])
    else FirstProblem(rs[1..])
  }

  /** What is wrong with a description, in the order in which it is found. */
  ghost function Verdict(c: Config): Option<Problem> {
    if c.addressWidth != 32 then Some(AddressWidth)
    else if FirstProblem(c.regions).Some? then FirstProblem(c.regions)
    else if !Distinct(Names(c.regions)) then Some(DuplicateName)
    else if !Disjoint(c.regions) then Some(Overlap)
    else if !Named(c.regions, "litex_mmio") then Some(NoCsrWindow)
    else
      var csr := Find(c.regions, "litex_mmio");
      if !(0x1_0000 <= csr.size <= 0x10_0000) then Some(CsrWidth)
      else if !PagesFit(c.pages, csr) then Some(CsrPage)
      else if !PlicFits(c.plicIds, c.numSources) then Some(PlicAllocation)
      else if !Named(c.regions, "main_ram") then Some(NoMainRam)
      else if !DmaFits(c.sd) then Some(SdDma)
      else if !ScratchFits(c.sd, Find(c.regions, "main_ram")) then Some(SdScratch)
      else None
  }

  lemma {:induction false} NoProblem(rs: seq<Region>)
    ensures FirstProblem(rs).None? <==> forall i :: 0 <= i < |rs| ==> WellFormed(rs[i])
  {
    hide RegionProblem, WellFormed;
    if rs != [] {
      RegionCheck(rs[0]);
      NoProblem(rs[1..]);
      if forall i :: 0 <= i < |rs[1..]| ==> WellFormed(rs[1..][i]) {
        forall i | 0 < i < |rs| ensures WellFormed(rs[i]) { assert rs[i] == rs[1..][i - 1]; }
      }
    }
  }

  /** An accepted description has well-formed, pairwise disjoint regions of different names. */
  lemma AcceptedRegions(c: Config)
    requires Verdict(c).None?
    ensures Distinct(c.regions) && Disjoint(c.regions)
    ensures forall i :: 0 <= i < |c.regions| ==> WellFormed(c.regions[i])
  {
    NoProblem(c.regions);
    DistinctNames(c.regions);
  }

  lemma CsrWidthCheck(csr: Region)
    requires WellFormed(csr)
    ensures 14 <= CsrAddressWidth(csr.size) <= 18 <==> 0x1_0000 <= csr.size <= 0x10_0000
    ensures 14 <= CsrAddressWidth(csr.size) ==> csr.size == 4 * Pow2(CsrAddressWidth(csr.size))
  {
    var k: nat :| csr.size == Pow2(k);
    hide And, BitLength;
    PowerLength(k);
    SmallPowers();
    if k < 16 { PowersGrow(k, 16); }
    if k > 16 { PowersGrow(16, k); }
    if k < 20 { PowersGrow(k, 20); }
    if k > 20 { PowersGrow(20, k); }
    if k >= 2 { assert Pow2(k) == 2 * Pow2(k - 1) == 4 * Pow2(k - 2); }
  }

  lemma SmallPowers()
    ensures Pow2(16) == 0x1_0000 && Pow2(20) == 0x10_0000
  {
    assert Pow2(4) == 16;
    assert Pow2(8) == 256;
    assert Pow2(12) == 4096;
    assert Pow2(16) == 0x1_0000;
  }

  /** The checks of a description, one after the other. */
  method LoadPlatform(c: Config) returns (problem: Option<Problem>)
    ensures problem == Verdict(c)
  {
    hide RegionProblem, WellFormed, Distinct, Disjoint, StableSort.Sorted, BitLength;
    if c.addressWidth != 32 { return Some(AddressWidth); }
    var bad := CheckRegions(c.regions);
    if bad.Some? { return bad; }
    NoProblem(c.regions);
    SetSize(Names(c.regions));
    var names := Names(c.regions);
    if |set x | x in names| != |c.regions| { return Some(DuplicateName); }
    DistinctNames(c.regions);
    PositiveSizes(c.regions);
    SortedNeighbours(c.regions);
    var ordered := StableSort.Sorted(c.regions, OriginOf);
    var apart := CheckNeighbours(ordered);
    if !apart { return Some(Overlap); }
    if !Named(c.regions, "litex_mmio") { return Some(NoCsrWindow); }
    var csr := Find(c.regions, "litex_mmio");
    CsrWidthCheck(csr);
    if !(14 <= CsrAddressWidth(csr.size) <= 18) { return Some(CsrWidth); }
    var fit := CheckPages(c.pages, csr);
    if !fit { return Some(CsrPage); }
    SetSize(c.plicIds);
    var outside := exists i :: 0 <= i < |c.plicIds| && !(1 <= c.plicIds[i] <= c.numSources);
    if |set x | x in c.plicIds| != |c.plicIds| || outside {
      return Some(PlicAllocation);
    }
    if !Named(c.regions, "main_ram") { return Some(NoMainRam); }
    if !DmaFits(c.sd) { return Some(SdDma); }
    if !ScratchFits(c.sd, Find(c.regions, "main_ram")) { return Some(SdScratch); }
    problem := None;
  }

  lemma PositiveSizes(rs: seq<Region>)
    requires forall i :: 0 <= i < |rs| ==> WellFormed(rs[i])
    ensures forall i :: 0 <= i < |rs| ==> rs[i].size > 0
  {
  }

  method CheckRegions(rs: seq<Region>) returns (problem: Option<Problem>)
    ensures problem == FirstProblem(rs)
  {
    hide RegionProblem;
    assert rs[0..] == rs;
    for i := 0 to |rs|
      invariant FirstProblem(rs) == FirstProblem(rs[i..])
    {
      assert rs[i..][0] == rs[i] && rs[i..][1..] == rs[i + 1..];
      problem := RegionProblem(rs[i]);
      if problem.Some? { return; }
    }
    problem := None;
  }

  method CheckNeighbours(rs: seq<Region>) returns (apart: bool)
    ensures apart == NeighboursApart(rs)
  {
    if |rs| < 2 { return true; }
    for k := 0 to |rs| - 1
      invariant forall j :: 0 <= j < k ==> End(rs[j]) <= rs[j + 1].origin
    {
      if rs[k].origin + rs[k].size > rs[k + 1].origin { return false; }
    }
    apart := true;
  }

  method CheckPages(pages: seq<Page>, csr: Region) returns (fit: bool)
    ensures fit == PagesFit(pages, csr)
  {
    var used: set<int> := {};
    for k := 0 to |pages|
      invariant forall i :: 0 <= i < k ==> InWindow(pages[i], csr)
      invariant used == set i | 0 <= i < k :: pages[i].origin
      invariant forall i, j :: 0 <= i < j < k ==> Origins(pages)[i] != Origins(pages)[j]
    {
      var p := pages[k];
      if p.size != PAGE || (p.origin - csr.origin) % p.size != 0
         || !(csr.origin <= p.origin && p.origin + p.size <= End(csr)) { return false; }
      if p.origin in used {
        var i :| 0 <= i < k && pages[i].origin == p.origin;
        assert Origins(pages)[i] == Origins(pages)[k];
        return false;
      }
      used := used + {p.origin};
    }
    fit := true;
  }

  // ----------------------------------------------------------------- CSR pages

  /** The number of a page inside the window, as the bus generator is given it. */
  function CsrIndex(p: Page, csr: Region): int { (p.origin - csr.origin) / PAGE }

  /** No address lies in two regions of an accepted description. */
  lemma OneRegion(c: Config, i: nat, j: nat, address: int)
    requires Verdict(c).None? && i < |c.regions| && j < |c.regions|
    requires Contains(c.regions[i], address) && Contains(c.regions[j], address)
    ensures i == j
  {
    hide Verdict, Apart, WellFormed;
    AcceptedRegions(c);
    if i < j { ApartMeans(c.regions[i], c.regions[j]); } else if j < i { ApartMeans(c.regions[j], c.regions[i]); }
  }

  /** An accepted description has a control window whose every word has an address of the accepted width. */
  lemma AcceptedWindow(c: Config) returns (csr: Region)
    requires Verdict(c).None?
    ensures csr in c.regions && csr.name == "litex_mmio" && PagesFit(c.pages, csr)
    ensures csr.size > 0 && 14 <= CsrAddressWidth(csr.size) <= 18 && csr.size == 4 * Pow2(CsrAddressWidth(csr.size))
  {
    hide FirstProblem, WellFormed, Disjoint, BitLength;
    csr := Find(c.regions, "litex_mmio");
    NoProblem(c.regions);
    CsrWidthCheck(csr);
  }

  /** Page numbers name the pages: each is a page of the window, leads back to its page's addresses, and no
      two are the same. */
  lemma CsrPagesExact(pages: seq<Page>, csr: Region, i: nat, j: nat)
    requires PagesFit(pages, csr) && i < |pages| && j < |pages|
    ensures var n := CsrIndex(pages[i], csr);
            && 0 <= n && (n + 1) * PAGE <= csr.size && csr.origin + n * PAGE == pages[i].origin
            && (i != j ==> n != CsrIndex(pages[j], csr))
  {
    assert InWindow(pages[i], csr) && InWindow(pages[j], csr);
    if i != j { assert Origins(pages)[i] != Origins(pages)[j]; }
  }

  // ------------------------------------------------------------ generated lookup

  datatype Attr = Attr(
    mapped: bool, readable: bool, writable: bool, executable: bool,
    cacheable: bool, device: bool, amo: bool, rsrv: bool)

  const UNMAPPED := Attr(false, false, false, false, false, false, false, false)

  function AttrOf(r: Region): Attr {
    var a := r.attributes;
    Attr(true, a.readable, a.writable, a.executable, a.cacheable, a.device, a.amo == "arithmetic",
         a.reservability == "eventual")
  }

  /** The end of an access in the generated code, which has one bit more than an address. */
  function Finish(address: nat, bytes: nat): int { (address + bytes) % 0x2_0000_0000_0000_0000 }

  predicate Matches(r: Region, address: nat, bytes: nat) {
    bytes > 0 && address >= r.origin && Finish(address, bytes) <= End(r)
  }

  predicate WordSized(address: nat, bytes: nat) { address < 0x1_0000_0000_0000_0000 && bytes < TOP }

  /** The later of two matches overwrites the earlier. */
  function LastMatch(rs: seq<Region>, address: nat, bytes: nat): Attr {
    if rs == [] then UNMAPPED
    else if Matches(rs[|rs| - 1], address, bytes) then AttrOf(rs[|rs| - 1])
    else LastMatch(rs[..|rs| - 1], address, bytes)
  }

  method Lookup(rs: seq<Region>, address: nat, bytes: nat) returns (attr: Attr)
    ensures attr == LastMatch(rs, address, bytes)
  {
    attr := UNMAPPED;
    for k := 0 to |rs|
      invariant attr == LastMatch(rs[..k], address, bytes)
    {
      assert rs[..k + 1][..k] == rs[..k];
      if Matches(rs[k], address, bytes) { attr := AttrOf(rs[k]); }
    }
    assert rs[..|rs|] == rs;
  }

  /** A region matches exactly the accesses that lie in it with every byte. */
  lemma MatchMeans(r: Region, address: nat, bytes: nat)
    requires WordSized(address, bytes) && bytes > 0
    ensures Matches(r, address, bytes) <==>
            forall x {:trigger Contains(r, x)} :: address <= x < address + bytes ==> Contains(r, x)
  {
    ModOf(address + bytes, 0, address + bytes, 0x2_0000_0000_0000_0000);
    if forall x {:trigger Contains(r, x)} :: address <= x < address + bytes ==> Contains(r, x) {
      assert Contains(r, address) && Contains(r, address + bytes - 1);
    }
  }

  lemma OneMatch(a: Region, b: Region, address: nat, bytes: nat)
    requires WordSized(address, bytes)
    ensures Matches(a, address, bytes) && Matches(b, address, bytes) ==> !Apart(a, b)
  {
    ModOf(address + bytes, 0, address + bytes, 0x2_0000_0000_0000_0000);
  }

  lemma {:induction false} MatchFound(rs: seq<Region>, address: nat, bytes: nat, k: nat)
    requires WordSized(address, bytes) && Disjoint(rs) && k < |rs| && Matches(rs[k], address, bytes)
    ensures LastMatch(rs, address, bytes) == AttrOf(rs[k])
    decreases |rs|
  {
    var n := |rs| - 1;
    if k < n {
      assert Apart(rs[k], rs[n]);
      OneMatch(rs[k], rs[n], address, bytes);
      MatchFound(rs[..n], address, bytes, k);
    }
  }

  lemma {:induction false} MatchMissing(rs: seq<Region>, address: nat, bytes: nat)
    requires forall k :: 0 <= k < |rs| ==> !Matches(rs[k], address, bytes)
    ensures LastMatch(rs, address, bytes) == UNMAPPED
    decreases |rs|
  {
    if rs != [] { MatchMissing(rs[..|rs| - 1], address, bytes); }
  }

  /** Over an accepted description the generated lookup does not depend on the order of the regions, though
      each match overwrites the ones before it. */
  lemma OrderIndependent(c: Config, rs: seq<Region>, address: nat, bytes: nat)
    requires Verdict(c).None? && multiset(rs) == multiset(c.regions) && WordSized(address, bytes)
    ensures LastMatch(rs, address, bytes) == LastMatch(c.regions, address, bytes)
  {
    hide LastMatch, Disjoint, Matches, Verdict, WellFormed;
    AcceptedRegions(c);
    DisjointAnyOrder(c.regions, rs);
    if k: nat :| k < |rs| && Matches(rs[k], address, bytes) {
      MatchFound(rs, address, bytes, k);
      assert rs[k] in multiset(rs);
      var j: nat :| j < |c.regions| && c.regions[j] == rs[k];
      MatchFound(c.regions, address, bytes, j);
    } else {
      MatchMissing(rs, address, bytes);
      forall j | 0 <= j < |c.regions| ensures !Matches(c.regions[j], address, bytes) {
        assert c.regions[j] in multiset(c.regions);
        assert c.regions[j] in rs;
      }
      MatchMissing(c.regions, address, bytes);
    }
  }

  /** An access has attributes exactly when one region holds all its bytes, and then that region's. */
  lemma LookupExact(c: Config, address: nat, bytes: nat)
    requires Verdict(c).None? && WordSized(address, bytes)
    ensures LastMatch(c.regions, address, bytes).mapped <==>
            exists k :: 0 <= k < |c.regions| && Matches(c.regions[k], address, bytes)
    ensures forall k :: 0 <= k < |c.regions| && Matches(c.regions[k], address, bytes) ==>
                          LastMatch(c.regions, address, bytes) == AttrOf(c.regions[k])
  {
    hide LastMatch, Disjoint, Matches, Verdict, WellFormed;
    AcceptedRegions(c);
    forall k | 0 <= k < |c.regions| && Matches(c.regions[k], address, bytes)
      ensures LastMatch(c.regions, address, bytes) == AttrOf(c.regions[k])
    {
      MatchFound(c.regions, address, bytes, k);
    }
    if forall k :: 0 <= k < |c.regions| ==> !Matches(c.regions[k], address, bytes) {
      MatchMissing(c.regions, address, bytes);
    }
  }

  /** An access whose bytes all lie in one region is told that region's rights, and may be atomic or reserved exactly
      when the description says "arithmetic" and "eventual". */
  lemma LookupTells(c: Config, address: nat, bytes: nat, k: nat)
    requires Verdict(c).None? && WordSized(address, bytes) && bytes > 0 && k < |c.regions|
    requires forall x {:trigger Contains(c.regions[k], x)} ::
               address <= x < address + bytes ==> Contains(c.regions[k], x)
    ensures var told, a := LastMatch(c.regions, address, bytes), c.regions[k].attributes;
            && told.mapped && told.readable == a.readable && told.writable == a.writable
            && told.executable == a.executable && told.cacheable == a.cacheable && told.device == a.device
            && (told.amo <==> a.amo == "arithmetic") && (told.rsrv <==> a.reservability == "eventual")
  {
    MatchMeans(c.regions[k], address, bytes);
    LookupExact(c, address, bytes);
    hide LastMatch, Verdict, Matches;
  }

  /** An access that no region holds whole, or of no bytes, has no rights at all. */
  lemma UnmappedRefused(c: Config, address: nat, bytes: nat)
    requires Verdict(c).None? && WordSized(address, bytes)
    requires bytes == 0 || forall k :: 0 <= k < |c.regions| ==>
               exists x {:trigger Contains(c.regions[k], x)} ::
                 address <= x < address + bytes && !Contains(c.regions[k], x)
    ensures var told := LastMatch(c.regions, address, bytes);
            !told.mapped && !told.readable && !told.writable && !told.executable
            && !told.cacheable && !told.device && !told.amo && !told.rsrv
  {
    forall k | 0 <= k < |c.regions| ensures !Matches(c.regions[k], address, bytes) {
      if bytes > 0 { MatchMeans(c.regions[k], address, bytes); }
    }
    MatchMissing(c.regions, address, bytes);
    hide LastMatch, Verdict;
  }

  // ----------------------------------------------------- what is accepted

  /** The regions: whole, of different names, and no address in two of them. */
  ghost predicate RegionsMeet(rs: seq<Region>) {
    && (forall k :: 0 <= k < |rs| ==> WellFormed(rs[k]))
    && (forall j, k :: 0 <= j < k < |rs| ==> rs[j].name != rs[k].name)
    && (forall j, k, x :: 0 <= j < k < |rs| && Contains(rs[j], x) ==> !Contains(rs[k], x))
  }

  /** The control window: 64 KiB to 1 MiB, every page with its first and last byte inside, page by page apart. */
  ghost predicate WindowMeets(pages: seq<Page>, csr: Region) {
    && csr.name == "litex_mmio" && 64 * 1024 <= csr.size <= 1024 * 1024
    && (forall k :: 0 <= k < |pages| ==>
          && pages[k].size == 4096 && (pages[k].origin - csr.origin) % 4096 == 0
          && Contains(csr, pages[k].origin) && Contains(csr, pages[k].origin + 4095))
    && (forall j, k :: 0 <= j < k < |pages| ==> pages[j].origin != pages[k].origin)
  }

  ghost predicate InterruptsMeet(ids: seq<int>, sources: int) {
    forall k :: 0 <= k < |ids| ==> 1 <= ids[k] && ids[k] <= sources && forall j :: 0 <= j < k ==> ids[j] != ids[k]
  }

  /** The SD card writes 64 bits at a time into main memory, and its scratch area of at least nine lines lies there. */
  ghost predicate CardMeets(sd: SdCard, main: Region) {
    && main.name == "main_ram" && sd.dmaRegion == main.name && sd.dmaDataWidth == 64 && sd.mode == "read+write"
    && sd.scratch % 64 == 0 && sd.scratchSize >= 9 * 64
    && Contains(main, sd.scratch) && Contains(main, sd.scratch + sd.scratchSize - 1)
  }

  lemma RegionsChecked(rs: seq<Region>)
    ensures RegionsMeet(rs) <==> FirstProblem(rs).None? && Distinct(Names(rs)) && Disjoint(rs)
  {
    NoProblem(rs);
    if forall k :: 0 <= k < |rs| ==> WellFormed(rs[k]) {
      forall j, k | 0 <= j < k < |rs|
        ensures Apart(rs[j], rs[k]) <==> forall x :: Contains(rs[j], x) ==> !Contains(rs[k], x)
      {
        assert WellFormed(rs[j]) && WellFormed(rs[k]);
        ApartMeans(rs[j], rs[k]);
      }
      forall j, k | 0 <= j < k < |rs| ensures Names(rs)[j] == Names(rs)[k] <==> rs[j].name == rs[k].name { }
    }
    hide FirstProblem, Apart, PowerOfTwo;
  }

  lemma WindowChecked(pages: seq<Page>, csr: Region)
    requires csr.name == "litex_mmio"
    ensures WindowMeets(pages, csr) <==> 0x1_0000 <= csr.size <= 0x10_0000 && PagesFit(pages, csr)
  {
    forall j, k | 0 <= j < k < |pages|
      ensures Origins(pages)[j] == Origins(pages)[k] <==> pages[j].origin == pages[k].origin
    {
    }
  }

  lemma OfOneName(rs: seq<Region>, name: string, r: Region)
    requires Distinct(Names(rs)) && r in rs && r.name == name
    ensures Named(rs, name) && Find(rs, name) == r
  {
    var k :| 0 <= k < |rs| && rs[k] == r;
    var j :| 0 <= j < |rs| && rs[j] == Find(rs, name);
    if j < k { assert Names(rs)[j] != Names(rs)[k]; } else if k < j { assert Names(rs)[k] != Names(rs)[j]; }
  }

  /** A description is accepted exactly when it meets all of this. */
  lemma AcceptedExactly(c: Config)
    ensures Verdict(c).None? <==>
            && c.addressWidth == 32 && RegionsMeet(c.regions) && InterruptsMeet(c.plicIds, c.numSources)
            && (exists csr :: csr in c.regions && WindowMeets(c.pages, csr))
            && (exists main :: main in c.regions && CardMeets(c.sd, main))
  {
    RegionsChecked(c.regions);
    hide FirstProblem, Distinct, Disjoint, RegionsMeet, Origins, PagesFit, WindowMeets, InterruptsMeet;
    assert InterruptsMeet(c.plicIds, c.numSources) <==> PlicFits(c.plicIds, c.numSources) by { IdsChecked(c); }
    if RegionsMeet(c.regions) {
      forall csr | csr in c.regions && csr.name == "litex_mmio"
        ensures Named(c.regions, "litex_mmio") && Find(c.regions, "litex_mmio") == csr
        ensures WindowMeets(c.pages, csr) <==> 0x1_0000 <= csr.size <= 0x10_0000 && PagesFit(c.pages, csr)
      {
        OfOneName(c.regions, "litex_mmio", csr);
        WindowChecked(c.pages, csr);
      }
      forall main | main in c.regions && main.name == "main_ram"
        ensures Named(c.regions, "main_ram") && Find(c.regions, "main_ram") == main
        ensures CardMeets(c.sd, main) <==> DmaFits(c.sd) && ScratchFits(c.sd, main)
      {
        OfOneName(c.regions, "main_ram", main);
        CardChecked(c.sd, main);
      }
      NamesMeet(c);
    }
    hide Named, Find, CardMeets, PlicFits, DmaFits, ScratchFits;
  }

  lemma NamesMeet(c: Config)
    ensures forall csr :: WindowMeets(c.pages, csr) ==> csr.name == "litex_mmio"
    ensures forall main :: CardMeets(c.sd, main) ==> main.name == "main_ram"
  {
  }

  lemma IdsChecked(c: Config)
    ensures InterruptsMeet(c.plicIds, c.numSources) <==> PlicFits(c.plicIds, c.numSources)
  {
  }

  lemma CardChecked(sd: SdCard, main: Region)
    requires main.name == "main_ram"
    ensures CardMeets(sd, main) <==> DmaFits(sd) && ScratchFits(sd, main)
  {
  }
}
