/** The instruction encoders of the random program generator, and the decoder inverting each. */
module Encoders {
  import opened Rv64

  function EncI(op: nat, rd: nat, f3: nat, rs: nat, imm: int): nat {
    imm % 0x1000 * 0x10_0000 + rs * 0x8000 + f3 * 0x1000 + rd * 0x80 + op
  }

  function EncR(rd: nat, f3: nat, a: nat, b: nat, f7: nat, op: nat): nat {
    f7 * 0x200_0000 + b * 0x10_0000 + a * 0x8000 + f3 * 0x1000 + rd * 0x80 + op
  }

  function EncStore(f3: nat, base: nat, rs: nat, imm: int): nat {
    imm / 0x20 % 0x80 * 0x200_0000 + rs * 0x10_0000 + base * 0x8000 + f3 * 0x1000 + imm % 0x20 * 0x80 + 0x23
  }

  function EncBranch(f3: nat, a: nat, b: nat, off: int): nat {
    off / 0x1000 % 2 * 0x8000_0000 + off / 0x20 % 0x40 * 0x200_0000 + b * 0x10_0000 + a * 0x8000
    + f3 * 0x1000 + off / 2 % 0x10 * 0x100 + off / 0x800 % 2 * 0x80 + 0x63
  }

  function EncJal(rd: nat, off: int): nat {
    off / 0x10_0000 % 2 * 0x8000_0000 + off / 2 % 0x400 * 0x20_0000 + off / 0x800 % 2 * 0x10_0000
    + off / 0x1000 % 0x100 * 0x1000 + rd * 0x80 + 0x6f
  }

  function EncCsr(addr: nat, rd: nat, op: nat, rs: nat): nat {
    addr * 0x10_0000 + rs * 0x8000 + op * 0x1000 + rd * 0x80 + 0x73
  }

  lemma FieldsI(op: nat, rd: nat, f3: nat, rs: nat, imm: int)
    requires op < 0x80 && rd < 0x20 && f3 < 8 && rs < 0x20
    ensures EncI(op, rd, f3, rs, imm) < TWO32
    ensures var w := EncI(op, rd, f3, rs, imm);
            && Opcode(w) == op && Rd(w) == rd && Funct3(w) == f3 && Rs1(w) == rs
            && Imm12(w) == imm % 0x1000 && Funct7(w) == imm % 0x1000 / 0x20
            && (-0x800 <= imm < 0x800 ==> ImmI(w) == imm)
  {
    Fields(imm % 0x1000 / 0x20, imm % 0x1000 % 0x20, rs, f3, rd, op);
    assert imm % 0x1000 / 0x20 * 0x20 + imm % 0x1000 % 0x20 == imm % 0x1000;
    hide Opcode, Rd, Funct3, Rs1, Rs2, Funct7, Imm12;
    assert -0x800 <= imm < 0x800 ==> imm % 0x1000 == if imm < 0 then imm + 0x1000 else imm;
  }

  lemma DecodeStore(f3: nat, base: nat, rs: nat, imm: int)
    requires f3 < 4 && base < 0x20 && rs < 0x20 && -0x800 <= imm < 0x800
    ensures EncStore(f3, base, rs, imm) < TWO32
    ensures Decode(EncStore(f3, base, rs, imm)) == Store(f3, base, rs, imm)
  {
    var w := EncStore(f3, base, rs, imm);
    Fields(imm / 0x20 % 0x80, rs, base, f3, imm % 0x20, 0x23);
    StoreImmediate(w, imm);
    hide Opcode, Rd, Funct3, Rs1, Rs2, Funct7, EncStore, ImmS;
  }

  lemma StoreImmediate(w: nat, imm: int)
    requires -0x800 <= imm < 0x800 && Funct7(w) == imm / 0x20 % 0x80 && Rd(w) == imm % 0x20
    ensures ImmS(w) == imm
  {
    hide Funct7, Rd;
    assert imm / 0x20 % 0x80 * 0x20 + imm % 0x20 == imm % 0x1000;
    assert imm % 0x1000 == if imm < 0 then imm + 0x1000 else imm;
  }

  lemma DecodeR(rd: nat, f3: nat, a: nat, b: nat, f7: nat, op: nat)
    requires rd < 0x20 && f3 < 8 && a < 0x20 && b < 0x20
    requires op == 0x33 || (op == 0x3b && (f3 == 0 || f3 == 1 || f3 == 5))
    requires f7 == 0 || (f7 == 0x20 && (f3 == 0 || f3 == 5))
    ensures EncR(rd, f3, a, b, f7, op) < TWO32
    ensures Decode(EncR(rd, f3, a, b, f7, op))
            == if op == 0x33 then Op(rd, f3, a, b, f7 == 0x20) else OpW(rd, f3, a, b, f7 == 0x20)
  {
    hide Decode, EncR, Opcode, Rd, Funct3, Rs1, Rs2, Funct7;
    FieldsR(rd, f3, a, b, f7, op);
    DecodeRFields(EncR(rd, f3, a, b, f7, op));
  }

  lemma FieldsR(rd: nat, f3: nat, a: nat, b: nat, f7: nat, op: nat)
    requires rd < 0x20 && f3 < 8 && a < 0x20 && b < 0x20 && f7 < 0x80 && op < 0x80
    ensures EncR(rd, f3, a, b, f7, op) < TWO32
    ensures var w := EncR(rd, f3, a, b, f7, op);
            && Opcode(w) == op && Rd(w) == rd && Funct3(w) == f3 && Rs1(w) == a && Rs2(w) == b && Funct7(w) == f7
  {
    Fields(f7, b, a, f3, rd, op);
    hide Opcode, Rd, Funct3, Rs1, Rs2, Funct7;
  }

  lemma DecodeRFields(w: nat)
    ensures Opcode(w) == 0x33 ==> Decode(w) == DecodeOp(w)
    ensures Opcode(w) == 0x3b ==> Decode(w) == DecodeOpW(w)
  {
    hide Opcode, DecodeOp, DecodeOpW, DecodeOpImm, DecodeOpImmW, DecodeSystem, ImmI, ImmS, ImmB, ImmJ, Rd, Rs1, Rs2;
    hide Funct3;
  }

  lemma DecodeCsr(addr: nat, rd: nat, op: nat, rs: nat)
    requires KnownCsr(addr) && rd < 0x20 && op < 8 && op % 4 != 0 && rs < 0x20
    ensures EncCsr(addr, rd, op, rs) < TWO32
    ensures Decode(EncCsr(addr, rd, op, rs)) == Csr(rd, addr, op, rs)
  {
    Fields(addr / 0x20, addr % 0x20, rs, op, rd, 0x73);
  }

  // Splitting an offset at each of the bit positions the branch and jump formats cut it at.
  lemma Cut5(n: int) ensures n % 0x20 == n / 2 % 0x10 * 2 + n % 2 {}
  lemma Cut11(n: int) ensures n % 0x800 == n / 0x20 % 0x40 * 0x20 + n % 0x20 {}
  lemma Cut11Jump(n: int) ensures n % 0x800 == n / 2 % 0x400 * 2 + n % 2 {}
  lemma Cut12(n: int) ensures n % 0x1000 == n / 0x800 % 2 * 0x800 + n % 0x800 {}
  lemma Cut13(n: int) ensures n % 0x2000 == n / 0x1000 % 2 * 0x1000 + n % 0x1000 {}
  lemma Cut20(n: int) ensures n % 0x10_0000 == n / 0x1000 % 0x100 * 0x1000 + n % 0x1000 {}
  lemma Cut21(n: int) ensures n % 0x20_0000 == n / 0x10_0000 % 2 * 0x10_0000 + n % 0x10_0000 {}

  lemma SignExtendMod13(n: int)
    requires -0x1000 <= n < 0x1000
    ensures SignExtend(n % 0x2000, 0x1000) == n
  {
    assert n % 0x2000 == if n < 0 then n + 0x2000 else n;
  }

  lemma SignExtendMod21(n: int)
    requires -0x10_0000 <= n < 0x10_0000
    ensures SignExtend(n % 0x20_0000, 0x10_0000) == n
  {
    assert n % 0x20_0000 == if n < 0 then n + 0x20_0000 else n;
  }

  /** Every even branch offset in range survives the split into the B format's four pieces. */
  lemma DecodeBranch(f3: nat, a: nat, b: nat, off: int)
    requires f3 < 8 && f3 != 2 && f3 != 3 && a < 0x20 && b < 0x20
    requires -0x1000 <= off < 0x1000 && off % 2 == 0
    ensures EncBranch(f3, a, b, off) < TWO32
    ensures Decode(EncBranch(f3, a, b, off)) == Branch(f3, a, b, off)
  {
    var f7 := off / 0x1000 % 2 * 0x40 + off / 0x20 % 0x40;
    var low := off / 2 % 0x10 * 2 + off / 0x800 % 2;
    var w := EncBranch(f3, a, b, off);
    assert w == f7 * 0x200_0000 + b * 0x10_0000 + a * 0x8000 + f3 * 0x1000 + low * 0x80 + 0x63;
    Fields(f7, b, a, f3, low, 0x63);
    BranchPieces(w, f7, low);
    BranchImmediate(w, off);
    hide Opcode, Rd, Funct3, Rs1, Rs2, Funct7, EncBranch, ImmB;
  }

  lemma BranchImmediate(w: nat, off: int)
    requires -0x1000 <= off < 0x1000 && off % 2 == 0
    requires w / 0x8000_0000 % 2 == off / 0x1000 % 2 && w / 0x80 % 2 == off / 0x800 % 2
    requires w / 0x200_0000 % 0x40 == off / 0x20 % 0x40 && w / 0x100 % 0x10 == off / 2 % 0x10
    ensures ImmB(w) == off
  {
    Cut5(off);
    Cut11(off);
    Cut12(off);
    Cut13(off);
    SignExtendMod13(off);
  }

  lemma BranchPieces(w: nat, f7: nat, low: nat)
    requires f7 < 0x80 && low < 0x20 && w < 0x1_0000_0000 && Funct7(w) == f7 && Rd(w) == low
    ensures w / 0x8000_0000 % 2 == f7 / 0x40 && w / 0x80 % 2 == low % 2
    ensures w / 0x200_0000 % 0x40 == f7 % 0x40 && w / 0x100 % 0x10 == low / 2
  {
    HighPieces(w);
    LowPieces(w / 0x80);
    assert w / 0x100 == w / 0x80 / 2;
    hide Funct7, Rd;
  }

  lemma HighPieces(w: nat)
    requires w < 0x1_0000_0000
    ensures w / 0x8000_0000 % 2 == Funct7(w) / 0x40 && w / 0x200_0000 % 0x40 == Funct7(w) % 0x40
  {
    assert Funct7(w) == w / 0x200_0000;
    assert w / 0x8000_0000 == w / 0x200_0000 / 0x40;
  }

  lemma LowPieces(q: nat)
    ensures q % 2 == q % 0x20 % 2 && q / 2 % 0x10 == q % 0x20 / 2
  {
  }

  /** Every even jump offset in range survives the split into the J format's four pieces. */
  lemma DecodeJal(rd: nat, off: int)
    requires rd < 0x20 && -0x10_0000 <= off < 0x10_0000 && off % 2 == 0
    ensures EncJal(rd, off) < TWO32
    ensures Decode(EncJal(rd, off)) == Jal(rd, off)
  {
    var w := EncJal(rd, off);
    JumpPieces(rd, off / 0x10_0000 % 2, off / 2 % 0x400, off / 0x800 % 2, off / 0x1000 % 0x100, w);
    assert ImmJ(w) == off by {
      Cut11Jump(off); Cut12(off); Cut20(off); Cut21(off);
      SignExtendMod21(off);
    }
    hide Opcode, Rd, Funct3, Rs1, Rs2, Funct7, EncJal, ImmJ;
  }

  lemma JumpPieces(rd: nat, b20: nat, b1: nat, b11: nat, b12: nat, w: nat)
    requires rd < 0x20 && b20 < 2 && b1 < 0x400 && b11 < 2 && b12 < 0x100
    requires w == b20 * 0x8000_0000 + b1 * 0x20_0000 + b11 * 0x10_0000 + b12 * 0x1000 + rd * 0x80 + 0x6f
    ensures Opcode(w) == 0x6f && Rd(w) == rd && w / 0x8000_0000 % 2 == b20 && w / 0x1000 % 0x100 == b12
    ensures w / 0x10_0000 % 2 == b11 && w / 0x20_0000 % 0x400 == b1
  {
    assert w / 0x80 == b20 * 0x100_0000 + b1 * 0x4000 + b11 * 0x2000 + b12 * 0x20 + rd;
    assert w / 0x1000 == b20 * 0x8_0000 + b1 * 0x200 + b11 * 0x100 + b12;
    assert w / 0x10_0000 == b20 * 0x800 + b1 * 2 + b11;
    assert w / 0x20_0000 == b20 * 0x400 + b1;
    assert w / 0x8000_0000 == b20;
  }
}
