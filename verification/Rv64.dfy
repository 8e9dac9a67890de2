/** The part of RV64I, with the machine-mode trap registers, that generated random programs use.
    Words, addresses and register values are integers; registers hold values modulo 2^64. */
module Rv64 {
  import Rings

  const TWO32: int := 0x1_0000_0000
  const TWO64: int := 0x1_0000_0000_0000_0000
  const TWO63: int := 0x8000_0000_0000_0000

  datatype Instr =
    | OpImm(rd: nat, f3: nat, rs1: nat, imm: int)
    | OpImmW(rd: nat, f3: nat, rs1: nat, imm: int)
    | Op(rd: nat, f3: nat, rs1: nat, rs2: nat, alt: bool)
    | OpW(rd: nat, f3: nat, rs1: nat, rs2: nat, alt: bool)
    | Auipc(rd: nat, imm: int)
    | Load(rd: nat, f3: nat, rs1: nat, imm: int)
    | Store(f3: nat, rs1: nat, rs2: nat, imm: int)
    | Branch(f3: nat, rs1: nat, rs2: nat, imm: int)
    | Jal(rd: nat, imm: int)
    | Csr(rd: nat, addr: nat, op: nat, src: nat)
    | Ecall
    | Ebreak
    | Mret
    | Illegal

  /** Two's complement reading of the low `2 * half` values. */
  function SignExtend(value: int, half: int): (r: int)
    requires 0 < half && 0 <= value < 2 * half
    ensures -half <= r < half
  {
    if value >= half then value - 2 * half else value
  }

  function Opcode(w: nat): nat { w % 0x80 }
  function Rd(w: nat): nat { w / 0x80 % 0x20 }
  function Funct3(w: nat): nat { w / 0x1000 % 8 }
  function Rs1(w: nat): nat { w / 0x8000 % 0x20 }
  function Rs2(w: nat): nat { w / 0x10_0000 % 0x20 }
  function Funct7(w: nat): nat { w / 0x200_0000 % 0x80 }
  function Imm12(w: nat): nat { w / 0x10_0000 % 0x1000 }

  function ImmI(w: nat): int { SignExtend(Imm12(w), 0x800) }
  function ImmS(w: nat): int { SignExtend(Funct7(w) * 0x20 + Rd(w), 0x800) }

  function ImmB(w: nat): int {
    SignExtend(w / 0x8000_0000 % 2 * 0x1000 + w / 0x80 % 2 * 0x800
               + w / 0x200_0000 % 0x40 * 0x20 + w / 0x100 % 0x10 * 2, 0x1000)
  }

  function ImmJ(w: nat): int {
    SignExtend(w / 0x8000_0000 % 2 * 0x10_0000 + w / 0x1000 % 0x100 * 0x1000
               + w / 0x10_0000 % 2 * 0x800 + w / 0x20_0000 % 0x400 * 2, 0x10_0000)
  }

  function DecodeOpImm(w: nat): Instr {
    if Funct3(w) == 1 && Imm12(w) / 0x40 != 0 then Illegal
    else if Funct3(w) == 5 && Imm12(w) / 0x40 != 0 && Imm12(w) / 0x40 != 0x10 then Illegal
    else OpImm(Rd(w), Funct3(w), Rs1(w), ImmI(w))
  }

  function DecodeOpImmW(w: nat): Instr {
    if Funct3(w) == 0 || (Funct3(w) == 1 && Funct7(w) == 0) || (Funct3(w) == 5 && (Funct7(w) == 0 || Funct7(w) == 0x20))
    then OpImmW(Rd(w), Funct3(w), Rs1(w), ImmI(w))
    else Illegal
  }

  function DecodeOp(w: nat): Instr {
    if Funct7(w) == 0 || (Funct7(w) == 0x20 && (Funct3(w) == 0 || Funct3(w) == 5))
    then Op(Rd(w), Funct3(w), Rs1(w), Rs2(w), Funct7(w) == 0x20)
    else Illegal
  }

  function DecodeOpW(w: nat): Instr {
    if (Funct7(w) == 0 && (Funct3(w) == 0 || Funct3(w) == 1 || Funct3(w) == 5))
       || (Funct7(w) == 0x20 && (Funct3(w) == 0 || Funct3(w) == 5))
    then OpW(Rd(w), Funct3(w), Rs1(w), Rs2(w), Funct7(w) == 0x20)
    else Illegal
  }

  function DecodeSystem(w: nat): Instr {
    if w == 0x0000_0073 then Ecall
    else if w == 0x0010_0073 then Ebreak
    else if w == 0x3020_0073 then Mret
    else if Funct3(w) % 4 == 0 || !KnownCsr(Imm12(w)) then Illegal
    else Csr(Rd(w), Imm12(w), Funct3(w), Rs1(w))
  }

  /** The instruction a 32-bit word encodes; every other word is Illegal here. */
  function Decode(w: nat): Instr {
    var op := Opcode(w);
    if op == 0x13 then DecodeOpImm(w)
    else if op == 0x1b then DecodeOpImmW(w)
    else if op == 0x33 then DecodeOp(w)
    else if op == 0x3b then DecodeOpW(w)
    else if op == 0x17 then Auipc(Rd(w), w / 0x1000 % 0x10_0000 * 0x1000)
    else if op == 0x03 then (if Funct3(w) == 7 then Illegal else Load(Rd(w), Funct3(w), Rs1(w), ImmI(w)))
    else if op == 0x23 then (if Funct3(w) >= 4 then Illegal else Store(Funct3(w), Rs1(w), Rs2(w), ImmS(w)))
    else if op == 0x63 then (if Funct3(w) == 2 || Funct3(w) == 3 then Illegal
                             else Branch(Funct3(w), Rs1(w), Rs2(w), ImmB(w)))
    else if op == 0x6f then Jal(Rd(w), ImmJ(w))
    else if op == 0x73 then DecodeSystem(w)
    else Illegal
  }

  // ---------------------------------------------------------------- the machine

  const MTVEC: nat := 0x305
  const MSCRATCH: nat := 0x340
  const MEPC: nat := 0x341
  const MCAUSE: nat := 0x342
  const MTVAL: nat := 0x343

  predicate KnownCsr(addr: nat) {
    addr == MTVEC || addr == MSCRATCH || addr == MEPC || addr == MCAUSE || addr == MTVAL
  }

  datatype Machine = Machine(
    pc: int, x: seq<int>, mem: map<int, int>, priv: nat, mpp: nat,
    mtvec: int, mscratch: int, mepc: int, mcause: int, mtval: int)

  /** Results of every arithmetic instruction except ADDI, left open: nothing below depends on them. */
  type Alu = (Instr, int, int) -> int

  function X(s: Machine, r: nat): int { if r == 0 || r >= |s.x| then 0 else s.x[r] }

  function SetX(s: Machine, r: nat, v: int): Machine {
    if r == 0 || r >= |s.x| then s else s.(x := s.x[r := v % TWO64])
  }

  function Signed(v: int): int { if v >= TWO63 then v - TWO64 else v }

  function Byte(mem: map<int, int>, a: int): int { if a in mem then mem[a] else 0 }

  function Bytes(mem: map<int, int>, a: int, n: nat): int
    decreases n
  {
    if n == 0 then 0 else Byte(mem, a) + 0x100 * Bytes(mem, a + 1, n - 1)
  }

  /** The 32-bit little-endian word at address a. */
  function Fetch(mem: map<int, int>, a: int): int {
    Byte(mem, a) + 0x100 * Byte(mem, a + 1) + 0x1_0000 * Byte(mem, a + 2) + 0x100_0000 * Byte(mem, a + 3)
  }

  /** Memory after writing the n low bytes of v at a, little-endian. */
  function Write(mem: map<int, int>, a: int, n: nat, v: int): map<int, int>
    decreases n
  {
    if n == 0 then mem else Write(mem[a := v % 0x100], a + 1, n - 1, v / 0x100)
  }

  function Size(f3: nat): (n: nat)
    ensures 1 <= n <= 8
  {
    if f3 % 4 == 0 then 1 else if f3 % 4 == 1 then 2 else if f3 % 4 == 2 then 4 else 8
  }

  function Loaded(mem: map<int, int>, a: int, f3: nat): int {
    var v := Bytes(mem, a, Size(f3));
    if f3 == 0 && v >= 0x80 then v - 0x100
    else if f3 == 1 && v >= 0x8000 then v - 0x1_0000
    else if f3 == 2 && v >= 0x8000_0000 then v - 0x1_0000_0000
    else v
  }

  function Taken(f3: nat, a: int, b: int): bool {
    if f3 == 0 then a == b
    else if f3 == 1 then a != b
    else if f3 == 4 then Signed(a) < Signed(b)
    else if f3 == 5 then Signed(a) >= Signed(b)
    else if f3 == 6 then a < b
    else a >= b
  }

  function BitOr(a: nat, b: nat): nat {
    if b == 0 then a else 2 * BitOr(a / 2, b / 2) + (if a % 2 == 1 || b % 2 == 1 then 1 else 0)
  }

  function BitClear(a: nat, b: nat): nat {
    if b == 0 then a else 2 * BitClear(a / 2, b / 2) + (if a % 2 == 1 && b % 2 == 0 then 1 else 0)
  }

  function ReadCsr(s: Machine, addr: nat): int {
    if addr == MTVEC then s.mtvec
    else if addr == MSCRATCH then s.mscratch
    else if addr == MEPC then s.mepc
    else if addr == MCAUSE then s.mcause
    else s.mtval
  }

  /** mtvec keeps its base and the low mode bit, mepc is word aligned, the others keep any value. */
  function WriteCsr(s: Machine, addr: nat, v: int): Machine {
    if addr == MTVEC then s.(mtvec := v / 4 * 4 + v % 2)
    else if addr == MSCRATCH then s.(mscratch := v)
    else if addr == MEPC then s.(mepc := v / 4 * 4)
    else if addr == MCAUSE then s.(mcause := v)
    else s.(mtval := v)
  }

  function CsrResult(op: nat, old_: int, operand: int): int {
    if op % 4 == 1 || old_ < 0 || operand < 0 then operand
    else if op % 4 == 2 then BitOr(old_, operand)
    else BitClear(old_, operand)
  }

  /** An exception enters machine mode at the vector base, whatever the mode bit says. */
  function Trap(s: Machine, cause: int, tval: int): Machine {
    s.(pc := s.mtvec / 4 * 4, mepc := s.pc / 4 * 4, mcause := cause, mtval := tval, mpp := s.priv, priv := 3)
  }

  function ExecuteCsr(s: Machine, ins: Instr): Machine
    requires ins.Csr?
  {
    var before := ReadCsr(s, ins.addr);
    var operand := if ins.op >= 4 then ins.src else X(s, ins.src);
    var writes := ins.op % 4 == 1 || ins.src != 0;
    var s' := if writes then WriteCsr(s, ins.addr, CsrResult(ins.op, before, operand)) else s;
    SetX(s'.(pc := s.pc + 4), ins.rd, before)
  }

  /** One architectural event: an instruction retires, or it traps. */
  function Execute(alu: Alu, s: Machine, ins: Instr): Machine {
    var next := s.(pc := s.pc + 4);
    match ins
    case OpImm(rd, f3, rs1, imm) =>
      SetX(next, rd, if f3 == 0 then X(s, rs1) + imm else alu(ins, X(s, rs1), 0))
    case OpImmW(rd, _, rs1, _) => SetX(next, rd, alu(ins, X(s, rs1), 0))
    case Op(rd, _, rs1, rs2, _) => SetX(next, rd, alu(ins, X(s, rs1), X(s, rs2)))
    case OpW(rd, _, rs1, rs2, _) => SetX(next, rd, alu(ins, X(s, rs1), X(s, rs2)))
    case Auipc(rd, imm) => SetX(next, rd, s.pc + SignExtend(imm % 0x1_0000_0000, 0x8000_0000))
    case Load(rd, f3, rs1, imm) =>
      var a := (X(s, rs1) + imm) % TWO64;
      if a % Size(f3) != 0 then Trap(s, 4, a) else SetX(next, rd, Loaded(s.mem, a, f3))
    case Store(f3, rs1, rs2, imm) =>
      var a := (X(s, rs1) + imm) % TWO64;
      if a % Size(f3) != 0 then Trap(s, 6, a) else next.(mem := Write(s.mem, a, Size(f3), X(s, rs2)))
    case Branch(f3, rs1, rs2, imm) =>
      if Taken(f3, X(s, rs1), X(s, rs2)) then s.(pc := s.pc + imm) else next
    case Jal(rd, imm) => SetX(s.(pc := s.pc + imm), rd, s.pc + 4)
    case Csr(_, _, _, _) => if s.priv != 3 then Trap(s, 2, 0) else ExecuteCsr(s, ins)
    case Ecall => Trap(s, 8 + s.priv, 0)
    case Ebreak => Trap(s, 3, s.pc)
    case Mret => if s.priv != 3 then Trap(s, 2, 0) else s.(pc := s.mepc, priv := s.mpp, mpp := 0)
    case Illegal => Trap(s, 2, 0)
  }

  function Current(s: Machine): Instr {
    var w := Fetch(s.mem, s.pc);
    if w < 0 then Illegal else Decode(w)
  }

  function Step(alu: Alu, s: Machine): Machine { Execute(alu, s, Current(s)) }

  function Run(alu: Alu, s: Machine, n: nat): Machine
    decreases n
  {
    if n == 0 then s else Run(alu, Step(alu, s), n - 1)
  }

  lemma {:induction false} RunSplit(alu: Alu, s: Machine, m: nat, n: nat)
    ensures Run(alu, s, m + n) == Run(alu, Run(alu, s, m), n)
    decreases m
  {
    hide Step;
    if m > 0 {
      RunSplit(alu, Step(alu, s), m - 1, n);
    }
  }

  // ------------------------------------------------- memory and field lemmas

  lemma {:induction false} WriteFrame(mem: map<int, int>, a: int, n: nat, v: int, b: int)
    requires b < a || a + n <= b
    ensures Byte(Write(mem, a, n, v), b) == Byte(mem, b)
    decreases n
  {
    if n > 0 {
      WriteFrame(mem[a := v % 0x100], a + 1, n - 1, v / 0x100, b);
    }
  }

  lemma FetchFrame(mem: map<int, int>, a: int, n: nat, v: int, b: int)
    requires b + 4 <= a || a + n <= b
    ensures Fetch(Write(mem, a, n, v), b) == Fetch(mem, b)
  {
    WriteFrame(mem, a, n, v, b);
    WriteFrame(mem, a, n, v, b + 1);
    WriteFrame(mem, a, n, v, b + 2);
    WriteFrame(mem, a, n, v, b + 3);
  }

  function Pow256(n: nat): nat { if n == 0 then 1 else 0x100 * Pow256(n - 1) }

  lemma LowBytes(v: int, p: int)
    requires p > 0
    ensures v % 0x100 + 0x100 * (v / 0x100 % p) == v % (0x100 * p)
  {
    var low, rest := v % 0x100, v / 0x100;
    assert (0x100 * p) * (rest / p) == 0x100 * (p * (rest / p));
    Rings.ModOf(v, rest / p, low + 0x100 * (rest % p), 0x100 * p);
  }

  /** What is written is read back, as far as it fits. */
  lemma {:induction false} WriteBack(mem: map<int, int>, a: int, n: nat, v: int)
    ensures Pow256(n) > 0 && Bytes(Write(mem, a, n, v), a, n) == v % Pow256(n)
    decreases n
  {
    if n > 0 {
      WriteBack(mem[a := v % 0x100], a + 1, n - 1, v / 0x100);
      WriteFrame(mem[a := v % 0x100], a + 1, n - 1, v / 0x100, a);
      LowBytes(v, Pow256(n - 1));
    }
  }

  lemma Powers256()
    ensures Pow256(1) == 0x100 && Pow256(2) == 0x1_0000 && Pow256(4) == 0x1_0000_0000 && Pow256(8) == TWO64
  {
    assert Pow256(1) == 0x100;
    assert Pow256(2) == 0x1_0000;
    assert Pow256(4) == 0x1_0000_0000;
    assert Pow256(6) == 0x1_0000_0000_0000;
  }

  lemma Congruent(v: int, p: int, x: int)
    requires p > 0 && (x == v % p || x == v % p - p)
    ensures (x - v) % p == 0
  {
    var q := v / p;
    Rings.ModOf(x - v, if x == v % p then -q else -q - 1, 0, p);
  }

  /** A load of 1, 2, 4 or 8 bytes gives back what a store of that size left, the shorter ones sign-extended. */
  lemma StoredIsLoaded(mem: map<int, int>, a: int, f3: nat, v: int)
    requires f3 < 4
    ensures Size(f3) == [1, 2, 4, 8][f3]
    ensures var x := Loaded(Write(mem, a, Size(f3), v), a, f3);
            var p := [0x100, 0x1_0000, 0x1_0000_0000, TWO64][f3];
            && (x - v) % p == 0 && (if f3 == 3 then 0 <= x < p else -p <= 2 * x < p)
  {
    WriteBack(mem, a, Size(f3), v);
    Powers256();
    hide Bytes, Write, Pow256;
    Congruent(v, [0x100, 0x1_0000, 0x1_0000_0000, TWO64][f3], Loaded(Write(mem, a, Size(f3), v), a, f3));
  }

  /** The conditions come in opposite pairs, and the signed ones differ from the unsigned ones in the top bit alone. */
  lemma ConditionsPair(a: int, b: int)
    requires 0 <= a < TWO64 && 0 <= b < TWO64
    ensures (Taken(0, a, b) <==> a == b) && (Taken(6, a, b) <==> a < b)
    ensures Taken(4, a, b) <==> if (a >= TWO63) == (b >= TWO63) then a < b else a >= TWO63
    ensures Taken(1, a, b) == !Taken(0, a, b) && Taken(5, a, b) == !Taken(4, a, b) && Taken(7, a, b) == !Taken(6, a, b)
  {
  }

  predicate BitAt(n: nat, k: nat) { if k == 0 then n % 2 == 1 else BitAt(n / 2, k - 1) }

  lemma {:induction false} NoBits(k: nat)
    ensures !BitAt(0, k)
  {
    if k > 0 { NoBits(k - 1); }
  }

  /** Setting and clearing by a mask work bit by bit. */
  lemma {:induction false} MaskBits(a: nat, b: nat, k: nat)
    ensures BitAt(BitOr(a, b), k) <==> BitAt(a, k) || BitAt(b, k)
    ensures BitAt(BitClear(a, b), k) <==> BitAt(a, k) && !BitAt(b, k)
    decreases k
  {
    if b == 0 { NoBits(k); } else if k > 0 { MaskBits(a / 2, b / 2, k - 1); }
  }

  /** A control register gives back what was written to it, mtvec but for its second bit and mepc but for its low two,
      and a write changes no other. */
  lemma CsrReadBack(s: Machine, addr: nat, v: int, other: nat)
    requires KnownCsr(addr) && KnownCsr(other)
    ensures var x := ReadCsr(WriteCsr(s, addr, v), addr);
            x == v - (if addr == MEPC then v % 4 else if addr == MTVEC then v % 4 - v % 2 else 0)
    ensures other != addr ==> ReadCsr(WriteCsr(s, addr, v), other) == ReadCsr(s, other)
    ensures var s' := WriteCsr(s, addr, v);
            s'.pc == s.pc && s'.x == s.x && s'.mem == s.mem && s'.priv == s.priv && s'.mpp == s.mpp
  {
  }

  /** A trap remembers where and why, and a return from it gives back mode and place. */
  lemma TrapReturns(alu: Alu, s: Machine, cause: int, tval: int)
    requires s.pc % 4 == 0
    ensures var t := Trap(s, cause, tval);
            && ReadCsr(t, MEPC) == s.pc && ReadCsr(t, MCAUSE) == cause && ReadCsr(t, MTVAL) == tval
            && t.pc == ReadCsr(s, MTVEC) - ReadCsr(s, MTVEC) % 4 && t.x == s.x && t.mem == s.mem
            && Execute(alu, t, Mret).pc == s.pc && Execute(alu, t, Mret).priv == s.priv
  {
  }

  /** A word laid out in the R format's six fields gives each field back. */
  lemma Fields(f7: nat, rs2: nat, rs1: nat, f3: nat, rd: nat, op: nat)
    requires f7 < 0x80 && rs2 < 0x20 && rs1 < 0x20 && f3 < 8 && rd < 0x20 && op < 0x80
    ensures var w := f7 * 0x200_0000 + rs2 * 0x10_0000 + rs1 * 0x8000 + f3 * 0x1000 + rd * 0x80 + op;
            && Opcode(w) == op && Rd(w) == rd && Funct3(w) == f3 && Rs1(w) == rs1 && Rs2(w) == rs2
            && Funct7(w) == f7 && Imm12(w) == f7 * 0x20 + rs2
  {
    var w := f7 * 0x200_0000 + rs2 * 0x10_0000 + rs1 * 0x8000 + f3 * 0x1000 + rd * 0x80 + op;
    assert w / 0x80 == f7 * 0x4_0000 + rs2 * 0x2000 + rs1 * 0x100 + f3 * 0x20 + rd;
    assert w / 0x1000 == f7 * 0x2000 + rs2 * 0x100 + rs1 * 0x8 + f3;
    assert w / 0x8000 == f7 * 0x400 + rs2 * 0x20 + rs1;
    assert w / 0x10_0000 == f7 * 0x20 + rs2;
    assert w / 0x200_0000 == f7;
  }
}
