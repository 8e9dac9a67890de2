/** Who may do what with a mapped page, told from the bits of its flags and the result of the walk. */
module Sv39Rights {
  import opened Rings
  import opened Sv39

  /** Bit n of a page's flags. */
  predicate Flag(page: Page, n: nat) { page.flags / Pow2(n) % 2 == 1 }

  const VALID := 0
  const READ := 1
  const WRITE := 2
  const EXECUTE := 3
  const USER := 4
  const GLOBAL := 5
  const ACCESSED := 6
  const DIRTY := 7

  lemma SmallPowers()
    ensures Pow2(0) == 1 && Pow2(1) == 2 && Pow2(2) == 4 && Pow2(3) == 8
    ensures Pow2(4) == 16 && Pow2(5) == 32 && Pow2(6) == 64 && Pow2(7) == 128
  {
    assert Pow2(3) == 8;
    assert Pow2(5) == 32;
    assert Pow2(7) == 128;
  }

  lemma FlagsMean(page: Page)
    ensures (Flag(page, VALID) <==> V(page.flags)) && (Flag(page, READ) <==> R(page.flags))
    ensures (Flag(page, WRITE) <==> W(page.flags)) && (Flag(page, EXECUTE) <==> Ex(page.flags))
    ensures (Flag(page, USER) <==> U(page.flags)) && (Flag(page, GLOBAL) <==> G(page.flags))
    ensures (Flag(page, ACCESSED) <==> A(page.flags)) && (Flag(page, DIRTY) <==> D(page.flags))
  {
    SmallPowers();
  }

  /** Where a walk without read faults ends for an address that a mapped page holds. */
  lemma WalkInPage(mem: map<nat, nat>, next: nat, tables: map<Key, Table>, pages: map<Key, Page>,
                   va: int, level: nat, acc: Access)
    requires Tree(mem, next, tables, pages) && level <= 2 && Key(level, Vpn(va % TWO64, level)) in pages
    ensures Walk(mem, va, ROOT / 0x1000, acc, {}) ==
            if !Canonical(va % TWO64) then PageFault
            else Promise(pages[Key(level, Vpn(va % TWO64, level))], level, va % TWO64, acc,
                         GlobalPath(tables, va % TWO64, level))
  {
    WalkIsLookup(mem, next, tables, pages, va, acc, {});
    OnePage(mem, next, tables, pages, va % TWO64, level);
    hide Walk, Tree, Vpn, Canonical, Promise, GlobalPath, Reads;
  }

  /** What an access that is let through proves of its page: a store needs the write bit, a fetch the execute bit,
      a load the read bit or, made executable-readable, the execute bit; user mode needs a user page, and
      supervisor mode meets one only with `sum` and never for a fetch; and unless hardware sets them, the accessed
      bit, and for a store the dirty bit, were set. */
  lemma GrantedNeeds(mem: map<nat, nat>, next: nat, tables: map<Key, Table>, pages: map<Key, Page>,
                     va: int, level: nat, acc: Access)
    requires Tree(mem, next, tables, pages) && level <= 2 && Key(level, Vpn(va % TWO64, level)) in pages
    requires Walk(mem, va, ROOT / 0x1000, acc, {}).Mapped?
    ensures var page := pages[Key(level, Vpn(va % TWO64, level))];
            && Canonical(va % TWO64) && Flag(page, VALID) && (Flag(page, WRITE) ==> Flag(page, READ))
            && (acc.cmd == Store ==> Flag(page, WRITE))
            && (acc.cmd == Fetch ==> Flag(page, EXECUTE))
            && (acc.cmd == Load ==> Flag(page, READ) || (acc.mxr && Flag(page, EXECUTE)))
            && (acc.priv == 0 ==> Flag(page, USER))
            && (acc.priv == 1 && Flag(page, USER) ==> acc.sum && acc.cmd != Fetch)
            && (!acc.adue ==> Flag(page, ACCESSED))
            && (!acc.adue && acc.cmd == Store ==> Flag(page, DIRTY))
  {
    hide Walk, Tree, Vpn, Canonical, GlobalPath, V, R, W, Ex, U, G, A, D, Flag;
    WalkInPage(mem, next, tables, pages, va, level, acc);
    FlagsMean(pages[Key(level, Vpn(va % TWO64, level))]);
  }

  /** Conversely, nothing else is needed: a valid page at its natural alignment lets every such access through, to
      its own address plus the offset in the page. */
  lemma GrantedSuffices(mem: map<nat, nat>, next: nat, tables: map<Key, Table>, pages: map<Key, Page>,
                        va: int, level: nat, acc: Access)
    requires Tree(mem, next, tables, pages) && level <= 2 && Key(level, Vpn(va % TWO64, level)) in pages
    requires var page := pages[Key(level, Vpn(va % TWO64, level))];
             && Canonical(va % TWO64) && Flag(page, VALID) && (Flag(page, WRITE) ==> Flag(page, READ))
             && page.pa % Pow2(12 + 9 * level) == 0
    requires var page := pages[Key(level, Vpn(va % TWO64, level))];
             match acc.cmd
             case Store => Flag(page, WRITE) && (acc.adue || Flag(page, DIRTY))
             case Fetch => Flag(page, EXECUTE)
             case Load => Flag(page, READ) || (acc.mxr && Flag(page, EXECUTE))
    requires var page := pages[Key(level, Vpn(va % TWO64, level))];
             && (acc.adue || Flag(page, ACCESSED))
             && (acc.priv == 0 ==> Flag(page, USER))
             && (acc.priv == 1 && Flag(page, USER) ==> acc.sum && acc.cmd != Fetch)
    ensures var page := pages[Key(level, Vpn(va % TWO64, level))];
            var r := Walk(mem, va, ROOT / 0x1000, acc, {});
            && r.Mapped? && r.pa == page.pa + va % TWO64 % Pow2(12 + 9 * level)
            && (Flag(page, GLOBAL) ==> r.global)
  {
    var page := pages[Key(level, Vpn(va % TWO64, level))];
    WalkInPage(mem, next, tables, pages, va, level, acc);
    FlagsMean(page);
    SpanIsPower(level);
    AlignedFrame(page.pa, level);
    hide Walk, Tree, Vpn, Canonical, GlobalPath, V, R, W, Ex, U, G, A, D, Flag, Span, Frames, Pow2;
  }

  /** An entry of each level spans nine more address bits than one of the level below. */
  lemma SpanIsPower(level: nat)
    requires level <= 3
    ensures Span(level) == Pow2(12 + 9 * level)
  {
    assert Pow2(6) == 64;
    assert Pow2(12) == 0x1000;
    assert Pow2(18) == 0x4_0000;
    assert Pow2(21) == 0x20_0000;
    assert Pow2(27) == 0x800_0000;
    assert Pow2(30) == 0x4000_0000;
    assert Pow2(36) == 0x10_0000_0000;
    assert Pow2(39) == 0x80_0000_0000;
  }

  /** Two addresses of the 39-bit space have the same page key exactly when they lie in the same aligned region of
      the page's size. */
  lemma SamePage(va: nat, va': nat, level: nat)
    requires level <= 2 && va < TWO39 && va' < TWO39
    ensures Vpn(va, level) == Vpn(va', level) <==> va / Pow2(12 + 9 * level) == va' / Pow2(12 + 9 * level)
  {
    SpanIsPower(level);
    ModOf(va, 0, va, TWO39);
    ModOf(va', 0, va', TWO39);
    hide Span, Pow2;
  }

  /** An address is canonical exactly when its upper 25 bits repeat bit 38. */
  lemma CanonicalMeans(va: nat)
    requires va < TWO64
    ensures Canonical(va) <==> va < TWO39 / 2 || va >= TWO64 - TWO39 / 2
  {
    var q, r := va / TWO39, va % TWO39;
    assert va == q * TWO39 + r;
    var h := va / 0x40_0000_0000;
    assert va == h * 0x40_0000_0000 + va % 0x40_0000_0000;
    assert h == 2 * q + r / 0x40_0000_0000;
  }
}
