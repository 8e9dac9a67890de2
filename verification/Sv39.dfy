/** The Sv39 page-table walk (RISC-V Privileged Architecture 20211203, sections 4.3.2 and 4.4) and the
    builder of the tables it walks, both over a flat memory of page-table entries. */
module Sv39 {
  import Rings

  const TWO64: nat := 0x1_0000_0000_0000_0000
  const TWO56: nat := 0x100_0000_0000_0000
  const TWO54: nat := 0x40_0000_0000_0000
  const TWO39: nat := 0x80_0000_0000
  const ROOT: nat := 0x8000_0000
  const FIRST_TABLE: nat := 0x8000_2000

  datatype Command = Fetch | Load | Store
  datatype Access = Access(priv: nat, cmd: Command, sum: bool, mxr: bool, adue: bool)
  datatype Outcome = Mapped(pa: nat, global: bool) | PageFault | AccessFault

  // Page-table entry fields.
  predicate V(p: nat) { p % 2 == 1 }
  predicate R(p: nat) { p / 2 % 2 == 1 }
  predicate W(p: nat) { p / 4 % 2 == 1 }
  predicate Ex(p: nat) { p / 8 % 2 == 1 }
  predicate U(p: nat) { p / 16 % 2 == 1 }
  predicate G(p: nat) { p / 32 % 2 == 1 }
  predicate A(p: nat) { p / 64 % 2 == 1 }
  predicate D(p: nat) { p / 128 % 2 == 1 }

  /** Bytes mapped by one entry of a table at this level. */
  function Span(level: nat): (s: nat)
    ensures s > 0
  {
    if level == 0 then 0x1000 else if level == 1 then 0x20_0000 else if level == 2 then 0x4000_0000 else TWO39
  }

  /** Pages of 4 KiB in one such entry. */
  function Frames(level: nat): (s: nat)
    ensures s > 0
  {
    if level == 0 then 1 else if level == 1 then 0x200 else 0x4_0000
  }

  predicate Canonical(va: nat) {
    va / TWO39 == if va / 0x40_0000_0000 % 2 == 1 then 0x1ff_ffff else 0
  }

  /** The access rights and the accessed and dirty bits let this access through. */
  predicate Permits(flags: nat, acc: Access) {
    && (match acc.cmd
        case Fetch => Ex(flags)
        case Store => W(flags)
        case Load => R(flags) || (acc.mxr && Ex(flags)))
    && (acc.priv == 0 ==> U(flags))
    && (acc.priv == 1 && U(flags) ==> acc.cmd != Fetch && acc.sum)
    && (acc.adue || (A(flags) && (acc.cmd == Store ==> D(flags))))
  }

  function Get(mem: map<nat, nat>, a: nat): nat { if a in mem then mem[a] else 0 }

  function EntryAddr(base: nat, va: nat, level: nat): nat { base + va / Span(level) % 0x200 * 8 }

  predicate Malformed(p: nat) { !V(p) || (W(p) && !R(p)) || p / TWO54 != 0 }

  /** What a valid leaf entry gives. */
  function Leaf(p: nat, va: nat, level: nat, g: bool, acc: Access): Outcome {
    if p / 0x400 % Frames(level) != 0 || !Permits(p, acc) then PageFault
    else Mapped(p / 0x400 * 0x1000 / Span(level) * Span(level) + va % Span(level), g)
  }

  function WalkFrom(mem: map<nat, nat>, va: nat, base: nat, level: nat, g: bool, acc: Access,
                    readFault: set<nat>): Outcome
    decreases level
  {
    var addr := EntryAddr(base, va, level);
    if addr in readFault then AccessFault
    else
      var p := Get(mem, addr);
      if Malformed(p) then PageFault
      else if R(p) || Ex(p) then Leaf(p, va, level, g || G(p), acc)
      else if level == 0 then PageFault
      else WalkFrom(mem, va, p / 0x400 * 0x1000, level - 1, g || G(p), acc, readFault)
  }

  function Walk(mem: map<nat, nat>, va: int, root: nat, acc: Access, readFault: set<nat>): Outcome {
    var v: nat := va % TWO64;
    if !Canonical(v) then PageFault else WalkFrom(mem, v, root * 0x1000, 2, false, acc, readFault)
  }

  /** The walk as the loop over levels that it is. */
  method Translate(mem: map<nat, nat>, va: int, root: nat, acc: Access, readFault: set<nat>) returns (r: Outcome)
    ensures r == Walk(mem, va, root, acc, readFault)
  {
    var v: nat := va % TWO64;
    if !Canonical(v) { return PageFault; }
    var base: nat := root * 0x1000;
    var g := false;
    var level: nat := 2;
    while true
      invariant 0 <= level <= 2
      invariant Walk(mem, va, root, acc, readFault) == WalkFrom(mem, v, base, level, g, acc, readFault)
      decreases level
    {
      var addr := EntryAddr(base, v, level);
      if addr in readFault { return AccessFault; }
      var p := Get(mem, addr);
      if Malformed(p) { return PageFault; }
      g := g || G(p);
      if R(p) || Ex(p) { return Leaf(p, v, level, g, acc); }
      if level == 0 { return PageFault; }
      base := p / 0x400 * 0x1000;
      level := level - 1;
    }
  }

  // ------------------------------------------------- pages, tables and the tree

  /** A place in the tree: the level of an entry and the virtual page number above it. */
  datatype Key = Key(level: nat, vpn: nat)
  datatype Page = Page(pa: nat, flags: nat)
  datatype Table = Table(base: nat, global: bool)

  function Vpn(va: nat, level: nat): nat { va % TWO39 / Span(level) }

  /** The key of the table whose entry a key names. */
  function Holder(k: Key): Key { Key(k.level, k.vpn / 0x200) }

  /** The key of the table that an entry at this key points to, when it is a pointer. */
  function Below(k: Key): Key
    requires k.level > 0
  {
    Key(k.level - 1, k.vpn)
  }

  /** The entry that points to the table at this key. */
  function Above(k: Key): Key { Key(k.level + 1, k.vpn) }

  function Limit(level: nat): nat {
    if level == 0 then 0x800_0000 else if level == 1 then 0x4_0000 else if level == 2 then 0x200 else 1
  }

  function Pointer(t: Table): nat { t.base / 0x1000 * 0x400 + 1 + if t.global then 32 else 0 }

  function LeafEntry(p: Page): nat { p.pa / 0x1000 * 0x400 + p.flags }

  /** Flags in the ten flag bits, a physical address the entry can hold, and above the last level an
      entry that the walk does not take for a pointer. */
  predicate PageOk(level: nat, p: Page) {
    p.flags < 0x400 && p.pa < TWO56 && (level > 0 ==> !V(p.flags) || R(p.flags) || W(p.flags) || Ex(p.flags))
  }

  /** The entry of key k: in its holder, at its index. */
  function Slot(tables: map<Key, Table>, k: Key): nat
    requires Holder(k) in tables
  {
    tables[Holder(k)].base + k.vpn % 0x200 * 8
  }

  ghost predicate TableOk(tables: map<Key, Table>, next: nat, k: Key)
    requires k in tables
  {
    && k.level <= 2 && k.vpn < Limit(k.level + 1)
    && tables[k].base % 0x1000 == 0 && ROOT <= tables[k].base && tables[k].base + 0x1000 <= next
    && tables[k].base < TWO56
    && (k.level < 2 ==> Holder(Above(k)) in tables)
  }

  /** What memory holds at the entry of key k: a pointer, a leaf, or nothing. */
  ghost predicate EntryOk(mem: map<nat, nat>, tables: map<Key, Table>, pages: map<Key, Page>, k: Key)
    requires Holder(k) in tables
  {
    if k.level > 0 && Below(k) in tables then
      k !in pages && Slot(tables, k) in mem && mem[Slot(tables, k)] == Pointer(tables[Below(k)])
    else if k in pages then
      Slot(tables, k) in mem && mem[Slot(tables, k)] == LeafEntry(pages[k])
    else
      Slot(tables, k) !in mem
  }

  ghost predicate Tree(mem: map<nat, nat>, next: nat, tables: map<Key, Table>, pages: map<Key, Page>) {
    && Key(2, 0) in tables && tables[Key(2, 0)].base == ROOT
    && (forall k :: k in tables ==> TableOk(tables, next, k))
    && (forall j, k :: j in tables && k in tables && j != k ==> tables[j].base != tables[k].base)
    && (forall k :: k in pages ==>
        k.level <= 2 && k.vpn < Limit(k.level) && Holder(k) in tables && PageOk(k.level, pages[k]))
    && (forall k :: Holder(k) in tables ==> EntryOk(mem, tables, pages, k))
    && (forall a :: a in mem ==> a < next)
    && ROOT + 0x1000 <= next && next % 0x1000 == 0
  }

  /** Two different entries of the tree never share an address. */
  lemma SlotsDiffer(tables: map<Key, Table>, j: Key, k: Key)
    requires forall t :: t in tables ==> tables[t].base % 0x1000 == 0
    requires forall s, t :: s in tables && t in tables && s != t ==> tables[s].base != tables[t].base
    requires Holder(j) in tables && Holder(k) in tables && j != k
    ensures Slot(tables, j) != Slot(tables, k)
  {
    var a, b := tables[Holder(j)].base, tables[Holder(k)].base;
    if Holder(j) == Holder(k) {
      assert j.vpn % 0x200 != k.vpn % 0x200;
    } else {
      assert a / 0x1000 * 0x1000 == a && b / 0x1000 * 0x1000 == b;
    }
  }

  /** A page at key p lies in the region of the entry at key k, or the other way round. */
  predicate Overlap(j: Key, k: Key) {
    if j.level >= k.level then Up(k, j.level) == j.vpn else Up(j, k.level) == k.vpn
  }

  function Up(k: Key, level: nat): nat
    requires k.level <= level
  {
    if level == k.level then k.vpn
    else if level == k.level + 1 then k.vpn / 0x200
    else k.vpn / 0x4_0000
  }

  /** Every table but the root is there because of some page in its region. */
  ghost predicate Needed(tables: map<Key, Table>, pages: map<Key, Page>) {
    forall t :: t in tables && t.level < 2 ==>
      exists k :: k in pages && k.level <= t.level && Up(k, t.level + 1) == t.vpn
  }

  // ------------------------------------------------------ building the tree

  /** Hanging an empty table under a free entry keeps the tree. */
  lemma AddTable(mem: map<nat, nat>, next: nat, tables: map<Key, Table>, pages: map<Key, Page>, e: Key, g: bool)
    requires Tree(mem, next, tables, pages) && next < TWO56
    requires 0 < e.level <= 2 && e.vpn < Limit(e.level) && Holder(e) in tables && Slot(tables, e) !in mem
    ensures Below(e) !in tables
    ensures Tree(mem[Slot(tables, e) := Pointer(Table(next, g))], next + 0x1000, tables[Below(e) := Table(next, g)],
                 pages)
  {
    hide TableOk, PageOk, Pointer, EntryOk;
    var t := Table(next, g);
    FreeEntry(mem, tables, pages, e);
    TablesStay(mem, next, tables, pages, e, t);
    EntriesStay(mem, next, tables, pages, e, t);
  }

  lemma FreeEntry(mem: map<nat, nat>, tables: map<Key, Table>, pages: map<Key, Page>, e: Key)
    requires 0 < e.level && Holder(e) in tables && EntryOk(mem, tables, pages, e)
    ensures Slot(tables, e) !in mem ==> Below(e) !in tables
  {
  }

  lemma EntriesStay(mem: map<nat, nat>, next: nat, tables: map<Key, Table>, pages: map<Key, Page>, e: Key, t: Table)
    requires Tree(mem, next, tables, pages) && t.base == next
    requires 0 < e.level <= 2 && Holder(e) in tables && Slot(tables, e) !in mem && Slot(tables, e) < next
             && Below(e) !in tables
    ensures var tables' := tables[Below(e) := t];
            forall k :: Holder(k) in tables' ==> EntryOk(mem[Slot(tables, e) := Pointer(t)], tables', pages, k)
  {
    hide TableOk, PageOk, Pointer;
    var tables', mem' := tables[Below(e) := t], mem[Slot(tables, e) := Pointer(t)];
    forall k | Holder(k) in tables' ensures EntryOk(mem', tables', pages, k) {
      if Holder(k) == Below(e) {
        FreshEntry(mem, next, tables, pages, k);
      } else {
        OldEntry(mem, next, tables, pages, e, t, k);
      }
    }
  }

  lemma TablesStay(mem: map<nat, nat>, next: nat, tables: map<Key, Table>, pages: map<Key, Page>, e: Key, t: Table)
    requires Tree(mem, next, tables, pages) && next < TWO56 && t.base == next
    requires 0 < e.level <= 2 && e.vpn < Limit(e.level) && Holder(e) in tables
    ensures Slot(tables, e) < next
    ensures var tables' := tables[Below(e) := t]; forall k :: k in tables' ==> TableOk(tables', next + 0x1000, k)
    ensures forall k :: k in tables ==> tables[k].base < next
  {
    hide EntryOk, PageOk;
    assert TableOk(tables, next, Holder(e));
    forall k | k in tables ensures tables[k].base < next { assert TableOk(tables, next, k); }
    var tables' := tables[Below(e) := t];
    forall k | k in tables' ensures TableOk(tables', next + 0x1000, k) {
      if k != Below(e) { assert TableOk(tables, next, k); }
    }
  }

  lemma FreshEntry(mem: map<nat, nat>, next: nat, tables: map<Key, Table>, pages: map<Key, Page>, k: Key)
    requires Tree(mem, next, tables, pages) && Holder(k) !in tables && k.level <= 2
    ensures k !in pages && (k.level > 0 ==> Below(k) !in tables)
  {
    if k.level > 0 { BelowNeedsHolder(mem, next, tables, pages, k); }
  }

  lemma BelowNeedsHolder(mem: map<nat, nat>, next: nat, tables: map<Key, Table>, pages: map<Key, Page>, k: Key)
    requires Tree(mem, next, tables, pages) && 0 < k.level <= 2
    ensures Below(k) in tables ==> Holder(k) in tables
  {
    if Below(k) in tables {
      assert TableOk(tables, next, Below(k));
      assert Above(Below(k)) == k;
    }
  }

  lemma OldEntry(mem: map<nat, nat>, next: nat, tables: map<Key, Table>, pages: map<Key, Page>, e: Key, t: Table,
                 k: Key)
    requires Tree(mem, next, tables, pages) && 0 < e.level && Holder(e) in tables && Slot(tables, e) !in mem
    requires Holder(k) in tables && Below(e) !in tables
    ensures EntryOk(mem[Slot(tables, e) := Pointer(t)], tables[Below(e) := t], pages, k)
  {
    assert EntryOk(mem, tables, pages, k) && EntryOk(mem, tables, pages, e);
    if k != e {
      forall j | j in tables ensures tables[j].base % 0x1000 == 0 { assert TableOk(tables, next, j); }
      SlotsDiffer(tables, e, k);
    }
    EntryAfterTable(mem, tables, pages, e, t, k);
    hide EntryOk, Slot, TableOk, PageOk, Limit, Below;
  }

  lemma EntryAfterTable(mem: map<nat, nat>, tables: map<Key, Table>, pages: map<Key, Page>, e: Key, t: Table, k: Key)
    requires 0 < e.level && Holder(e) in tables && Slot(tables, e) !in mem && Holder(k) in tables && Below(e) !in tables
    requires EntryOk(mem, tables, pages, k) && EntryOk(mem, tables, pages, e)
    requires k != e ==> Slot(tables, e) != Slot(tables, k)
    ensures EntryOk(mem[Slot(tables, e) := Pointer(t)], tables[Below(e) := t], pages, k)
  {
    assert k != e && k.level > 0 ==> Below(k) != Below(e);
    assert Slot(tables[Below(e) := t], k) == Slot(tables, k);
    hide Pointer, LeafEntry, Slot;
  }

  /** Writing a leaf at an entry that points to no table keeps the tree, with that page added. */
  lemma AddPage(mem: map<nat, nat>, next: nat, tables: map<Key, Table>, pages: map<Key, Page>, p: Key, page: Page)
    requires Tree(mem, next, tables, pages) && p.level <= 2 && p.vpn < Limit(p.level) && PageOk(p.level, page)
    requires Holder(p) in tables && (p.level > 0 ==> Below(p) !in tables)
    ensures Tree(mem[Slot(tables, p) := LeafEntry(page)], next, tables, pages[p := page])
  {
    hide PageOk, EntryOk;
    assert TableOk(tables, next, Holder(p));
    forall j | j in tables ensures tables[j].base % 0x1000 == 0 { assert TableOk(tables, next, j); }
    forall k | Holder(k) in tables
      ensures EntryOk(mem[Slot(tables, p) := LeafEntry(page)], tables, pages[p := page], k)
    {
      assert EntryOk(mem, tables, pages, k);
      if k != p { SlotsDiffer(tables, p, k); }
      EntryAfterPage(mem, tables, pages, p, page, k);
    }
  }

  lemma EntryAfterPage(mem: map<nat, nat>, tables: map<Key, Table>, pages: map<Key, Page>, p: Key, page: Page, k: Key)
    requires Holder(p) in tables && Holder(k) in tables && (p.level > 0 ==> Below(p) !in tables)
    requires EntryOk(mem, tables, pages, k) && (k != p ==> Slot(tables, k) != Slot(tables, p))
    ensures EntryOk(mem[Slot(tables, p) := LeafEntry(page)], tables, pages[p := page], k)
  {
  }

  /** The builder. Its two ghost fields are the pages mapped so far and the tables made for them. */
  class Tables {
    var mem: map<nat, nat>
    var nextTable: nat
    ghost var pages: map<Key, Page>
    ghost var tables: map<Key, Table>

    ghost predicate Valid()
      reads this
    {
      Tree(mem, nextTable, tables, pages) && Needed(tables, pages)
    }

    constructor ()
      ensures Valid() && pages == map[] && mem == map[] && nextTable == FIRST_TABLE
      ensures tables == map[Key(2, 0) := Table(ROOT, false)]
    {
      mem, nextTable := map[], FIRST_TABLE;
      pages, tables := map[], map[Key(2, 0) := Table(ROOT, false)];
    }

    /** Maps one page that overlaps no other mapped page; mapping the same page again replaces it.
        Exactly that page changes, and no table on the way to any other page does. */
    method Map(va: nat, pa: nat, flags: nat, level: nat, globalPath: bool) returns (addr: nat)
      requires Valid() && level <= 2 && PageOk(level, Page(pa, flags)) && nextTable + 0x2000 <= TWO56
      requires forall k :: k in pages && k != Key(level, Vpn(va, level)) ==> !Overlap(Key(level, Vpn(va, level)), k)
      modifies this
      ensures Valid()
      ensures pages == old(pages)[Key(level, Vpn(va, level)) := Page(pa, flags)]
      ensures forall t :: t in old(tables) ==> t in tables && tables[t] == old(tables[t])
      ensures forall t :: t in tables && t !in old(tables) ==> tables[t].global == globalPath
      ensures old(nextTable) <= nextTable <= old(nextTable) + 0x1000 * (2 - level)
      ensures Holder(Key(level, Vpn(va, level))) in tables && addr == Slot(tables, Key(level, Vpn(va, level)))
    {
      hide Tree, Needed, Overlap, Vpn, Limit;
      ghost var p := Key(level, Vpn(va, level));
      ghost var path := Path(va, level, globalPath);
      var base: nat := ROOT;
      var l: nat := 2;
      assert Descending(path, old(tables), mem, nextTable, tables, pages, l, base) by {
        RootDescends(path, mem, nextTable, tables, pages);
      }
      while l > level
        invariant level <= l <= 2 && pages == old(pages)
        invariant Descending(path, old(tables), mem, nextTable, tables, pages, l, base)
        invariant old(nextTable) <= nextTable <= old(nextTable) + 0x1000 * (2 - l)
      {
        var entry := base + va / Span(l) % 0x200 * 8;
        NotAPage(va, level, l, pages);
        Descend(path, old(tables), mem, nextTable, tables, pages, l, base, entry);
        if entry !in mem {
          tables := tables[Key(l - 1, Vpn(va, l)) := Table(nextTable, globalPath)];
          mem := mem[entry := nextTable / 0x1000 * 0x400 + 1 + if globalPath then 32 else 0];
          nextTable := nextTable + 0x1000;
        }
        base := mem[entry] / 0x400 * 0x1000;
        l := l - 1;
      }
      addr := base + va / Span(level) % 0x200 * 8;
      Place(path, old(tables), mem, nextTable, tables, pages, base, addr, Page(pa, flags));
      mem := mem[addr := pa / 0x1000 * 0x400 + flags];
      pages := pages[p := Page(pa, flags)];
    }
  }

  /** A descent towards one entry. */
  datatype Path = Path(va: nat, level: nat, global: bool)

  /** Part of the way down a path: the tree holds, and what was added lies on the path. */
  ghost predicate Descending(path: Path, before: map<Key, Table>, mem: map<nat, nat>, next: nat,
                             tables: map<Key, Table>, pages: map<Key, Page>, l: nat, base: nat) {
    && path.level <= l <= 2
    && Tree(mem, next, tables, pages)
    && Key(l, Vpn(path.va, l) / 0x200) in tables && base == tables[Key(l, Vpn(path.va, l) / 0x200)].base
    && (forall t :: t in before ==> t in tables && tables[t] == before[t])
    && (forall t :: t in tables && t !in before ==>
          tables[t].global == path.global && path.level <= t.level < 2 && t.vpn == Vpn(path.va, t.level + 1))
  }

  lemma RootDescends(path: Path, mem: map<nat, nat>, next: nat, tables: map<Key, Table>, pages: map<Key, Page>)
    requires path.level <= 2 && Tree(mem, next, tables, pages)
    ensures Descending(path, tables, mem, next, tables, pages, 2, ROOT)
  {
    assert Vpn(path.va, 2) / 0x200 == 0;
  }

  lemma NotAPage(va: nat, level: nat, l: nat, pages: map<Key, Page>)
    requires level < l <= 2
    requires forall k :: k in pages && k != Key(level, Vpn(va, level)) ==> !Overlap(Key(level, Vpn(va, level)), k)
    ensures Key(l, Vpn(va, l)) !in pages
  {
    UpOfVpn(va, level, l);
    assert Overlap(Key(level, Vpn(va, level)), Key(l, Vpn(va, l)));
  }

  lemma Descend(path: Path, before: map<Key, Table>, mem: map<nat, nat>, next: nat,
                tables: map<Key, Table>, pages: map<Key, Page>, l: nat, base: nat, entry: nat)
    requires Descending(path, before, mem, next, tables, pages, l, base) && path.level < l && next < TWO56
    requires Key(l, Vpn(path.va, l)) !in pages && entry == base + path.va / Span(l) % 0x200 * 8
    ensures entry in mem ==> Descending(path, before, mem, next, tables, pages, l - 1, mem[entry] / 0x400 * 0x1000)
    ensures entry !in mem ==>
              var t := Table(next, path.global);
              Descending(path, before, mem[entry := Pointer(t)], next + 0x1000,
                         tables[Key(l - 1, Vpn(path.va, l)) := t], pages, l - 1, Pointer(t) / 0x400 * 0x1000)
  {
    hide Vpn, Limit, Tree, Span, EntryOk, Pointer;
    var e := Key(l, Vpn(path.va, l));
    DescentEntry(path.va, l);
    assert entry == Slot(tables, e);
    EntryOf(mem, next, tables, pages, e);
    if entry !in mem {
      NextAligned(mem, next, tables, pages);
      AddTable(mem, next, tables, pages, e, path.global);
      DescendNew(path, before, mem, next, tables, pages, l, entry);
    }
  }

  lemma DescendNew(path: Path, before: map<Key, Table>, mem: map<nat, nat>, next: nat,
                   tables: map<Key, Table>, pages: map<Key, Page>, l: nat, entry: nat)
    requires path.level < l <= 2 && next % 0x1000 == 0 && Key(l - 1, Vpn(path.va, l)) !in tables
    requires Vpn(path.va, l - 1) / 0x200 == Vpn(path.va, l)
    requires forall t :: t in before ==> t in tables && tables[t] == before[t]
    requires forall t :: t in tables && t !in before ==>
               tables[t].global == path.global && path.level <= t.level < 2 && t.vpn == Vpn(path.va, t.level + 1)
    requires var t := Table(next, path.global);
             Tree(mem[entry := Pointer(t)], next + 0x1000, tables[Key(l - 1, Vpn(path.va, l)) := t], pages)
    ensures var t := Table(next, path.global);
            Descending(path, before, mem[entry := Pointer(t)], next + 0x1000,
                       tables[Key(l - 1, Vpn(path.va, l)) := t], pages, l - 1, Pointer(t) / 0x400 * 0x1000)
  {
    hide Vpn, Tree;
  }

  lemma DescentEntry(va: nat, l: nat)
    requires 0 < l <= 2
    ensures Vpn(va, l) < Limit(l) && va / Span(l) % 0x200 == Vpn(va, l) % 0x200 && Vpn(va, l - 1) / 0x200 == Vpn(va, l)
  {
    hide Vpn;
    VpnFits(va);
    VpnIndex(va, l);
    VpnStep(va, l - 1);
  }

  lemma NextAligned(mem: map<nat, nat>, next: nat, tables: map<Key, Table>, pages: map<Key, Page>)
    requires Tree(mem, next, tables, pages)
    ensures next % 0x1000 == 0
  {
  }

  lemma EntryOf(mem: map<nat, nat>, next: nat, tables: map<Key, Table>, pages: map<Key, Page>, e: Key)
    requires Tree(mem, next, tables, pages) && 0 < e.level <= 2 && Holder(e) in tables && e !in pages
    ensures Slot(tables, e) in mem <==> Below(e) in tables
    ensures Below(e) in tables ==> mem[Slot(tables, e)] / 0x400 * 0x1000 == tables[Below(e)].base
  {
    assert EntryOk(mem, tables, pages, e);
    if Below(e) in tables { assert TableOk(tables, next, Below(e)); }
    hide LeafEntry, PageOk, Limit, Slot;
  }

  lemma Place(path: Path, before: map<Key, Table>, mem: map<nat, nat>, next: nat,
              tables: map<Key, Table>, pages: map<Key, Page>, base: nat, addr: nat, page: Page)
    requires Descending(path, before, mem, next, tables, pages, path.level, base) && PageOk(path.level, page)
    requires addr == base + path.va / Span(path.level) % 0x200 * 8 && Needed(before, pages)
    requires var p := Key(path.level, Vpn(path.va, path.level)); forall k :: k in pages && k != p ==> !Overlap(p, k)
    ensures var p := Key(path.level, Vpn(path.va, path.level));
            && Holder(p) in tables && addr == Slot(tables, p)
            && Tree(mem[addr := LeafEntry(page)], next, tables, pages[p := page])
            && Needed(tables, pages[p := page])
  {
    var p := Key(path.level, Vpn(path.va, path.level));
    VpnFits(path.va);
    VpnIndex(path.va, path.level);
    if path.level > 0 { NoTableUnder(before, pages, p); }
    StillNeeded(before, pages, tables, path.va, p, page);
    hide Vpn, Limit, Needed;
    AddPage(mem, next, tables, pages, p, page);
    hide Tree;
  }

  lemma VpnFits(va: nat)
    ensures Vpn(va, 0) < Limit(0) && Vpn(va, 1) < Limit(1) && Vpn(va, 2) < Limit(2)
  {
  }

  /** The index bits the builder and the walk use are the low nine bits of the page number. */
  lemma VpnIndex(va: nat, level: nat)
    requires level <= 2
    ensures va / Span(level) % 0x200 == Vpn(va, level) % 0x200
  {
    var q, r := va / TWO39, va % TWO39;
    if level == 0 { IndexLow(q, r); } else if level == 1 { IndexMiddle(q, r); } else { IndexHigh(q, r); }
  }

  lemma IndexLow(q: nat, r: nat)
    ensures (q * TWO39 + r) / 0x1000 % 0x200 == r / 0x1000 % 0x200
  {
    assert (q * TWO39 + r) / 0x1000 == q * 0x4_0000 * 0x200 + r / 0x1000;
  }

  lemma IndexMiddle(q: nat, r: nat)
    ensures (q * TWO39 + r) / 0x20_0000 % 0x200 == r / 0x20_0000 % 0x200
  {
    assert (q * TWO39 + r) / 0x20_0000 == q * 0x200 * 0x200 + r / 0x20_0000;
  }

  lemma IndexHigh(q: nat, r: nat)
    ensures (q * TWO39 + r) / 0x4000_0000 % 0x200 == r / 0x4000_0000 % 0x200
  {
    assert (q * TWO39 + r) / 0x4000_0000 == q * 0x200 + r / 0x4000_0000;
  }

  lemma VpnStep(va: nat, level: nat)
    requires level <= 1
    ensures Vpn(va, level) / 0x200 == Vpn(va, level + 1)
  {
  }

  lemma UpOfVpn(va: nat, level: nat, l: nat)
    requires level <= l <= 2
    ensures Up(Key(level, Vpn(va, level)), l) == Vpn(va, l)
  {
  }

  lemma NoTableUnder(tables: map<Key, Table>, pages: map<Key, Page>, p: Key)
    requires 0 < p.level <= 2 && Needed(tables, pages)
    requires forall k :: k in pages && k != p ==> !Overlap(p, k)
    ensures Below(p) !in tables
  {
    if Below(p) in tables {
      var k :| k in pages && k.level <= p.level - 1 && Up(k, p.level) == p.vpn;
      assert Overlap(p, k);
    }
  }

  lemma StillNeeded(tables: map<Key, Table>, pages: map<Key, Page>, tables': map<Key, Table>, va: nat, p: Key,
                    page: Page)
    requires Needed(tables, pages) && p.level <= 2 && p == Key(p.level, Vpn(va, p.level))
    requires forall t :: t in tables' && t !in tables ==> p.level <= t.level < 2 && t.vpn == Vpn(va, t.level + 1)
    ensures Needed(tables', pages[p := page])
  {
    var pages' := pages[p := page];
    forall t | t in tables' && t.level < 2
      ensures exists k :: k in pages' && k.level <= t.level && Up(k, t.level + 1) == t.vpn
    {
      if t in tables {
        var k :| k in pages && k.level <= t.level && Up(k, t.level + 1) == t.vpn;
        assert k in pages';
      } else {
        UpOfVpn(va, p.level, t.level + 1);
        assert p in pages';
      }
    }
  }

  // -------------------------------------------- the walk against the page map

  /** The level of the mapped page that holds va, or 3 when no mapped page does. */
  function PageLevel(pages: map<Key, Page>, va: nat): nat {
    if Key(2, Vpn(va, 2)) in pages then 2
    else if Key(1, Vpn(va, 1)) in pages then 1
    else if Key(0, Vpn(va, 0)) in pages then 0
    else 3
  }

  /** What a mapped page promises an access: its frame plus the offset, or a fault for a reserved or
      misaligned entry, for rights it does not give, or for accessed and dirty bits not set. */
  function Promise(page: Page, level: nat, va: nat, acc: Access, g: bool): Outcome {
    if V(page.flags) && (R(page.flags) || (Ex(page.flags) && !W(page.flags)))
       && page.pa / 0x1000 % Frames(level) == 0 && Permits(page.flags, acc)
    then Mapped(page.pa / 0x1000 * 0x1000 + va % Span(level), g || G(page.flags))
    else PageFault
  }

  /** Some table on the way down to this level was made global. */
  predicate GlobalPath(tables: map<Key, Table>, va: nat, level: nat) {
    || (level < 2 && Key(1, Vpn(va, 2)) in tables && tables[Key(1, Vpn(va, 2))].global)
    || (level < 1 && Key(0, Vpn(va, 1)) in tables && tables[Key(0, Vpn(va, 1))].global)
  }

  /** Translation as a lookup in the finite map of pages. */
  function Reference(tables: map<Key, Table>, pages: map<Key, Page>, va: int, acc: Access): Outcome {
    var v: nat := va % TWO64;
    var level := PageLevel(pages, v);
    if !Canonical(v) || level == 3 then PageFault
    else Promise(pages[Key(level, Vpn(v, level))], level, v, acc, GlobalPath(tables, v, level))
  }

  /** The entry addresses a walk for va reads: one for each table on its path. */
  function Reads(tables: map<Key, Table>, va: nat): set<nat> {
    (if Holder(Key(2, Vpn(va, 2))) in tables then {Slot(tables, Key(2, Vpn(va, 2)))} else {})
    + (if Holder(Key(1, Vpn(va, 1))) in tables then {Slot(tables, Key(1, Vpn(va, 1)))} else {})
    + (if Holder(Key(0, Vpn(va, 0))) in tables then {Slot(tables, Key(0, Vpn(va, 0)))} else {})
  }

  lemma EvenPlus(a: int, b: int)
    ensures (2 * a + b) % 2 == b % 2
  {
  }

  lemma BitV(q: nat, f: nat)
    requires f < 0x400
    ensures V(q * 0x400 + f) <==> V(f)
  {
    assert (q * 0x400 + f) / 1 == 2 * (q * 512) + f / 1;
    EvenPlus(q * 512, f / 1);
  }

  lemma BitR(q: nat, f: nat)
    requires f < 0x400
    ensures R(q * 0x400 + f) <==> R(f)
  {
    assert (q * 0x400 + f) / 2 == 2 * (q * 256) + f / 2;
    EvenPlus(q * 256, f / 2);
  }

  lemma BitW(q: nat, f: nat)
    requires f < 0x400
    ensures W(q * 0x400 + f) <==> W(f)
  {
    assert (q * 0x400 + f) / 4 == 2 * (q * 128) + f / 4;
    EvenPlus(q * 128, f / 4);
  }

  lemma BitEx(q: nat, f: nat)
    requires f < 0x400
    ensures Ex(q * 0x400 + f) <==> Ex(f)
  {
    assert (q * 0x400 + f) / 8 == 2 * (q * 64) + f / 8;
    EvenPlus(q * 64, f / 8);
  }

  lemma BitU(q: nat, f: nat)
    requires f < 0x400
    ensures U(q * 0x400 + f) <==> U(f)
  {
    assert (q * 0x400 + f) / 16 == 2 * (q * 32) + f / 16;
    EvenPlus(q * 32, f / 16);
  }

  lemma BitG(q: nat, f: nat)
    requires f < 0x400
    ensures G(q * 0x400 + f) <==> G(f)
  {
    assert (q * 0x400 + f) / 32 == 2 * (q * 16) + f / 32;
    EvenPlus(q * 16, f / 32);
  }

  lemma BitA(q: nat, f: nat)
    requires f < 0x400
    ensures A(q * 0x400 + f) <==> A(f)
  {
    assert (q * 0x400 + f) / 64 == 2 * (q * 8) + f / 64;
    EvenPlus(q * 8, f / 64);
  }

  lemma BitD(q: nat, f: nat)
    requires f < 0x400
    ensures D(q * 0x400 + f) <==> D(f)
  {
    assert (q * 0x400 + f) / 128 == 2 * (q * 4) + f / 128;
    EvenPlus(q * 4, f / 128);
  }

  lemma FlagBits(q: nat, f: nat)
    requires f < 0x400 && q < 0x1000_0000_0000
    ensures var p := q * 0x400 + f;
            && (V(p) <==> V(f)) && (R(p) <==> R(f)) && (W(p) <==> W(f)) && (Ex(p) <==> Ex(f))
            && (U(p) <==> U(f)) && (G(p) <==> G(f)) && (A(p) <==> A(f)) && (D(p) <==> D(f))
            && p / 0x400 == q && p / TWO54 == 0
  {
    BitV(q, f);
    BitR(q, f);
    BitW(q, f);
    BitEx(q, f);
    BitU(q, f);
    BitG(q, f);
    BitA(q, f);
    BitD(q, f);
    hide V, R, W, Ex, U, G, A, D;
  }

  lemma FrameAddress(q: nat, level: nat)
    requires level <= 2 && q % Frames(level) == 0
    ensures q * 0x1000 / Span(level) * Span(level) == q * 0x1000
  {
    var n := q / Frames(level);
    if level == 1 { assert q == n * 0x200; } else if level == 2 { assert q == n * 0x4_0000; }
  }

  /** A leaf entry, read back by the walk, keeps the page's promise. */
  lemma LeafKeepsPromise(page: Page, level: nat, va: nat, acc: Access, g: bool)
    requires level <= 2 && PageOk(level, page)
    ensures var p := LeafEntry(page);
            Promise(page, level, va, acc, g) ==
            if Malformed(p) then PageFault
            else if R(p) || Ex(p) then Leaf(p, va, level, g || G(p), acc)
            else PageFault
    ensures level > 0 ==> Malformed(LeafEntry(page)) || R(LeafEntry(page)) || Ex(LeafEntry(page))
  {
    FlagBits(page.pa / 0x1000, page.flags);
    if page.pa / 0x1000 % Frames(level) == 0 { FrameAddress(page.pa / 0x1000, level); }
    hide V, R, W, Ex, U, G, A, D, Span, Frames;
  }

  /** A pointer entry, read back by the walk, leads to its table. */
  lemma PointerLeads(t: Table)
    requires t.base % 0x1000 == 0 && t.base < TWO56
    ensures var p := Pointer(t);
            !Malformed(p) && !R(p) && !Ex(p) && (G(p) <==> t.global) && p / 0x400 * 0x1000 == t.base
  {
    FlagBits(t.base / 0x1000, 1 + if t.global then 32 else 0);
  }

  /** One level of the walk, in terms of pages and tables. */
  lemma WalkLevel(mem: map<nat, nat>, next: nat, tables: map<Key, Table>, pages: map<Key, Page>,
                  va: nat, level: nat, g: bool, acc: Access, readFault: set<nat>)
    requires Tree(mem, next, tables, pages) && level <= 2 && Holder(Key(level, Vpn(va, level))) in tables
    ensures var k := Key(level, Vpn(va, level));
            WalkFrom(mem, va, tables[Holder(k)].base, level, g, acc, readFault) ==
            if Slot(tables, k) in readFault then AccessFault
            else if level > 0 && Below(k) in tables then
              WalkFrom(mem, va, tables[Below(k)].base, level - 1, g || tables[Below(k)].global, acc, readFault)
            else if k in pages then Promise(pages[k], level, va, acc, g)
            else PageFault
  {
    var k := Key(level, Vpn(va, level));
    VpnIndex(va, level);
    assert EntryOk(mem, tables, pages, k);
    if level > 0 && Below(k) in tables {
      assert TableOk(tables, next, Below(k));
      PointerLeads(tables[Below(k)]);
    } else if k in pages {
      assert PageOk(k.level, pages[k]);
      LeafKeepsPromise(pages[k], level, va, acc, g);
    }
    hide Vpn, Span, Tree, EntryOk, TableOk, Malformed, R, Ex, G, Pointer, LeafEntry, Leaf, Promise;
  }

  /** Where the path stops, it stops for tables and pages alike. */
  lemma PathShape(mem: map<nat, nat>, next: nat, tables: map<Key, Table>, pages: map<Key, Page>, va: nat)
    requires Tree(mem, next, tables, pages)
    ensures Key(2, Vpn(va, 3)) in tables
    ensures Key(0, Vpn(va, 1)) in tables ==> Key(1, Vpn(va, 2)) in tables
    ensures Key(1, Vpn(va, 2)) in tables ==> Key(2, Vpn(va, 2)) !in pages
    ensures Key(0, Vpn(va, 1)) in tables ==> Key(1, Vpn(va, 1)) !in pages
    ensures Key(1, Vpn(va, 1)) in pages ==> Key(1, Vpn(va, 2)) in tables
    ensures Key(0, Vpn(va, 0)) in pages ==> Key(0, Vpn(va, 1)) in tables
    ensures Holder(Key(2, Vpn(va, 2))) == Key(2, Vpn(va, 3)) && Holder(Key(1, Vpn(va, 1))) == Key(1, Vpn(va, 2))
    ensures Holder(Key(0, Vpn(va, 0))) == Key(0, Vpn(va, 1))
  {
    VpnStep(va, 0);
    VpnStep(va, 1);
    assert Vpn(va, 3) == 0 == Vpn(va, 2) / 0x200;
    hide Vpn;
    var k2, k1 := Key(2, Vpn(va, 2)), Key(1, Vpn(va, 1));
    assert EntryOk(mem, tables, pages, k2);
    if Key(0, Vpn(va, 1)) in tables {
      assert TableOk(tables, next, Key(0, Vpn(va, 1)));
      assert EntryOk(mem, tables, pages, k1);
    }
  }

  /** The walk over memory is the lookup in the page map, for every address, access and set of faulting
      reads: an access fault exactly when the walk would read a faulting entry, otherwise the promise of
      the page that holds the address, or a page fault when there is none. */
  lemma WalkIsLookup(mem: map<nat, nat>, next: nat, tables: map<Key, Table>, pages: map<Key, Page>,
                     va: int, acc: Access, readFault: set<nat>)
    requires Tree(mem, next, tables, pages)
    ensures var v: nat := va % TWO64;
            Walk(mem, va, ROOT / 0x1000, acc, readFault) ==
            if Canonical(v) && Reads(tables, v) * readFault != {} then AccessFault
            else Reference(tables, pages, va, acc)
  {
    var v: nat := va % TWO64;
    PathShape(mem, next, tables, pages, v);
    WalkLevel(mem, next, tables, pages, v, 2, false, acc, readFault);
    var t1, t0 := Key(1, Vpn(v, 2)), Key(0, Vpn(v, 1));
    RootBase(mem, next, tables, pages, v);
    hide Vpn, Tree, WalkFrom, Slot, Promise, Canonical;
    if t1 in tables {
      WalkLevel(mem, next, tables, pages, v, 1, tables[t1].global, acc, readFault);
      if t0 in tables {
        WalkLevel(mem, next, tables, pages, v, 0, tables[t1].global || tables[t0].global, acc, readFault);
      }
    }
    ReadsMeet(tables, v, readFault);
  }

  lemma RootBase(mem: map<nat, nat>, next: nat, tables: map<Key, Table>, pages: map<Key, Page>, va: nat)
    requires Tree(mem, next, tables, pages)
    ensures Key(2, Vpn(va, 3)) in tables && tables[Key(2, Vpn(va, 3))].base == ROOT / 0x1000 * 0x1000
  {
    assert Vpn(va, 3) == 0;
  }

  lemma ReadsMeet(tables: map<Key, Table>, va: nat, readFault: set<nat>)
    ensures Reads(tables, va) * readFault != {} <==>
            || (Holder(Key(2, Vpn(va, 2))) in tables && Slot(tables, Key(2, Vpn(va, 2))) in readFault)
            || (Holder(Key(1, Vpn(va, 1))) in tables && Slot(tables, Key(1, Vpn(va, 1))) in readFault)
            || (Holder(Key(0, Vpn(va, 0))) in tables && Slot(tables, Key(0, Vpn(va, 0))) in readFault)
  {
    var both := Reads(tables, va) * readFault;
    forall level: nat | level <= 2 && Holder(Key(level, Vpn(va, level))) in tables
      && Slot(tables, Key(level, Vpn(va, level))) in readFault
      ensures both != {}
    {
      assert Slot(tables, Key(level, Vpn(va, level))) in both;
    }
    if both != {} {
      var a :| a in both;
    }
  }

  // --------------------------------------------------------- consequences

  /** A page-aligned mapping at its natural alignment translates every offset into the page. */
  lemma MappedOffset(mem: map<nat, nat>, next: nat, tables: map<Key, Table>, pages: map<Key, Page>,
                     va: nat, off: nat, level: nat, acc: Access)
    requires Tree(mem, next, tables, pages) && level <= 2 && Key(level, Vpn(va, level)) in pages
    requires va + off < TWO64 && Canonical(va) && va % Span(level) == 0 && off < Span(level)
    requires pages[Key(level, Vpn(va, level))].pa % Span(level) == 0
    ensures var page := pages[Key(level, Vpn(va, level))];
            Walk(mem, va + off, ROOT / 0x1000, acc, {}) ==
            if V(page.flags) && (R(page.flags) || (Ex(page.flags) && !W(page.flags))) && Permits(page.flags, acc)
            then Mapped(page.pa + off, GlobalPath(tables, va, level) || G(page.flags))
            else PageFault
  {
    hide Vpn, Tree, Canonical, Permits, V, R, W, Ex, G, Walk, Reads;
    var v := va + off;
    assert v % TWO64 == v;
    WalkIsLookup(mem, next, tables, pages, v, acc, {});
    InPage(va, off, level);
    OnePage(mem, next, tables, pages, v, level);
    AlignedFrame(pages[Key(level, Vpn(va, level))].pa, level);
    assert GlobalPath(tables, v, level) == GlobalPath(tables, va, level);
  }

  lemma AlignedFrame(pa: nat, level: nat)
    requires level <= 2 && pa % Span(level) == 0
    ensures pa / 0x1000 * 0x1000 == pa && pa / 0x1000 % Frames(level) == 0
  {
    var q := pa / Span(level);
    assert pa == q * Span(level);
    Rings.ModOf(pa, q * Frames(level), 0, 0x1000);
    Rings.ModOf(q * Frames(level), q, 0, Frames(level));
  }

  // Quotients and remainders of an address at the boundaries the walk uses, by page size.

  lemma SmallPage(n: nat, off: nat)
    requires off < 0x1000
    ensures var x := n * 0x1000 + off;
            && x % 0x1000 == off
            && x / 0x40_0000_0000 == n / 0x400_0000 && x / TWO39 == n / 0x800_0000
            && x % TWO39 == n % 0x800_0000 * 0x1000 + off
  {
    var x := n * 0x1000 + off;
    assert x / 0x1000 == n;
    assert x / 0x40_0000_0000 == x / 0x1000 / 0x400_0000;
    assert x / TWO39 == x / 0x1000 / 0x800_0000;
  }

  lemma MegaPage(n: nat, off: nat)
    requires off < 0x20_0000
    ensures var x := n * 0x20_0000 + off;
            && x % 0x20_0000 == off
            && x / 0x40_0000_0000 == n / 0x2_0000 && x / TWO39 == n / 0x4_0000
            && x % TWO39 == n % 0x4_0000 * 0x20_0000 + off
  {
    var x := n * 0x20_0000 + off;
    assert x / 0x20_0000 == n;
    assert x / 0x40_0000_0000 == x / 0x20_0000 / 0x2_0000;
    assert x / TWO39 == x / 0x20_0000 / 0x4_0000;
  }

  lemma GigaPage(n: nat, off: nat)
    requires off < 0x4000_0000
    ensures var x := n * 0x4000_0000 + off;
            && x % 0x4000_0000 == off
            && x / 0x40_0000_0000 == n / 0x100 && x / TWO39 == n / 0x200
            && x % TWO39 == n % 0x200 * 0x4000_0000 + off
  {
    var x := n * 0x4000_0000 + off;
    assert x / 0x4000_0000 == n;
    assert x / 0x40_0000_0000 == x / 0x4000_0000 / 0x100;
    assert x / TWO39 == x / 0x4000_0000 / 0x200;
  }

  lemma SmallVpn(m: nat, off: nat)
    requires off < 0x1000
    ensures var x := m * 0x1000 + off;
            x / 0x1000 == m && x / 0x20_0000 == m / 0x200 && x / 0x4000_0000 == m / 0x4_0000
  {
    var x := m * 0x1000 + off;
    assert x / 0x1000 == m;
    assert x / 0x20_0000 == x / 0x1000 / 0x200;
    assert x / 0x4000_0000 == x / 0x1000 / 0x4_0000;
  }

  lemma MegaVpn(m: nat, off: nat)
    requires off < 0x20_0000
    ensures var x := m * 0x20_0000 + off; x / 0x20_0000 == m && x / 0x4000_0000 == m / 0x200
  {
    var x := m * 0x20_0000 + off;
    assert x / 0x20_0000 == m;
    assert x / 0x4000_0000 == x / 0x20_0000 / 0x200;
  }

  lemma InSmallPage(va: nat, off: nat)
    requires Canonical(va) && va % 0x1000 == 0 && off < 0x1000
    ensures (va + off) % 0x1000 == off
    ensures Canonical(va + off) && Vpn(va + off, 0) == Vpn(va, 0) && Vpn(va + off, 1) == Vpn(va, 1)
            && Vpn(va + off, 2) == Vpn(va, 2)
  {
    var n := va / 0x1000;
    assert va == n * 0x1000;
    SmallPage(n, 0);
    SmallPage(n, off);
    SmallVpn(n % 0x800_0000, 0);
    SmallVpn(n % 0x800_0000, off);
  }

  lemma InMegaPage(va: nat, off: nat)
    requires Canonical(va) && va % 0x20_0000 == 0 && off < 0x20_0000
    ensures (va + off) % 0x20_0000 == off
    ensures Canonical(va + off) && Vpn(va + off, 1) == Vpn(va, 1) && Vpn(va + off, 2) == Vpn(va, 2)
  {
    var n := va / 0x20_0000;
    assert va == n * 0x20_0000;
    MegaPage(n, 0);
    MegaPage(n, off);
    MegaVpn(n % 0x4_0000, 0);
    MegaVpn(n % 0x4_0000, off);
  }

  lemma InGigaPage(va: nat, off: nat)
    requires Canonical(va) && va % 0x4000_0000 == 0 && off < 0x4000_0000
    ensures (va + off) % 0x4000_0000 == off
    ensures Canonical(va + off) && Vpn(va + off, 2) == Vpn(va, 2)
  {
    var n := va / 0x4000_0000;
    assert va == n * 0x4000_0000;
    GigaPage(n, 0);
    GigaPage(n, off);
  }

  /** An offset inside a page changes neither the page nor the tables on the way, nor canonicality. */
  lemma InPage(va: nat, off: nat, level: nat)
    requires level <= 2 && Canonical(va) && va % Span(level) == 0 && off < Span(level)
    ensures Canonical(va + off) && (va + off) % Span(level) == off
    ensures Vpn(va + off, level) == Vpn(va, level)
    ensures level <= 1 ==> Vpn(va + off, 1) == Vpn(va, 1)
    ensures Vpn(va + off, 2) == Vpn(va, 2)
  {
    hide Canonical, Vpn;
    if level == 0 { InSmallPage(va, off); } else if level == 1 { InMegaPage(va, off); } else { InGigaPage(va, off); }
  }

  lemma OnePage(mem: map<nat, nat>, next: nat, tables: map<Key, Table>, pages: map<Key, Page>, va: nat, level: nat)
    requires Tree(mem, next, tables, pages) && level <= 2 && Key(level, Vpn(va, level)) in pages
    ensures PageLevel(pages, va) == level
  {
    PathShape(mem, next, tables, pages, va);
    hide Vpn, Tree;
  }

  /** Adding a page somewhere else leaves every translation within a mapped page as it was. */
  lemma OtherPagesKeep(mem: map<nat, nat>, next: nat, tables: map<Key, Table>, pages: map<Key, Page>,
                       mem': map<nat, nat>, next': nat, tables': map<Key, Table>, pages': map<Key, Page>,
                       p: Key, va: int, acc: Access)
    requires Tree(mem, next, tables, pages) && Tree(mem', next', tables', pages')
    requires p in pages' && pages' == pages[p := pages'[p]]
    requires forall t :: t in tables ==> t in tables' && tables'[t] == tables[t]
    requires var v: nat := va % TWO64;
             PageLevel(pages, v) < 3 && Key(PageLevel(pages, v), Vpn(v, PageLevel(pages, v))) != p
    ensures Walk(mem', va, ROOT / 0x1000, acc, {}) == Walk(mem, va, ROOT / 0x1000, acc, {})
  {
    var v: nat := va % TWO64;
    var level := PageLevel(pages, v);
    WalkIsLookup(mem, next, tables, pages, va, acc, {});
    WalkIsLookup(mem', next', tables', pages', va, acc, {});
    PathShape(mem, next, tables, pages, v);
    assert Key(level, Vpn(v, level)) in pages';
    OnePage(mem', next', tables', pages', v, level);
    hide Vpn, Tree, Promise, Walk;
  }

  datatype Request = Request(va: nat, pa: nat, flags: nat, level: nat, global: bool)

  function KeyOf(r: Request): Key { Key(r.level, Vpn(r.va, r.level)) }

  /** The page map after a sequence of requests: later requests for a page replace earlier ones. */
  function PagesOf(rs: seq<Request>): map<Key, Page> {
    if rs == [] then map[]
    else PagesOf(rs[..|rs| - 1])[KeyOf(rs[|rs| - 1]) := Page(rs[|rs| - 1].pa, rs[|rs| - 1].flags)]
  }

  /** Well-formed requests whose pages are the same or disjoint. */
  predicate Consistent(rs: seq<Request>) {
    && (forall i :: 0 <= i < |rs| ==> rs[i].level <= 2 && PageOk(rs[i].level, Page(rs[i].pa, rs[i].flags)))
    && (forall i, j :: 0 <= i < j < |rs| ==> KeyOf(rs[i]) == KeyOf(rs[j]) || !Overlap(KeyOf(rs[j]), KeyOf(rs[i])))
  }

  lemma {:induction false} PagesFromRequests(rs: seq<Request>, k: Key)
    ensures k in PagesOf(rs) ==> exists i :: 0 <= i < |rs| && KeyOf(rs[i]) == k
  {
    if rs != [] {
      var n := |rs| - 1;
      PagesFromRequests(rs[..n], k);
      if k in PagesOf(rs[..n]) {
        var i :| 0 <= i < n && KeyOf(rs[..n][i]) == k;
        assert KeyOf(rs[i]) == k;
      } else if k in PagesOf(rs) {
        assert KeyOf(rs[n]) == k;
      }
    }
  }

  /** Any sequence of consistent requests, from an empty tree: the pages are exactly those asked for,
      so by WalkIsLookup every walk is a lookup among them. */
  method MapAll(rs: seq<Request>) returns (t: Tables)
    requires Consistent(rs) && FIRST_TABLE + 0x2000 * |rs| <= TWO56
    ensures fresh(t) && t.Valid() && t.pages == PagesOf(rs)
  {
    t := new Tables();
    hide Tree, Needed, Overlap, Vpn, PageOk;
    for i := 0 to |rs|
      invariant fresh(t) && t.Valid() && t.pages == PagesOf(rs[..i])
      invariant t.nextTable <= FIRST_TABLE + 0x2000 * i
    {
      var r := rs[i];
      forall k | k in t.pages && k != KeyOf(r) ensures !Overlap(KeyOf(r), k) {
        PagesFromRequests(rs[..i], k);
      }
      assert rs[..i + 1][..i] == rs[..i];
      var _ := t.Map(r.va, r.pa, r.flags, r.level, r.global);
    }
    assert rs[..|rs|] == rs;
  }
}
