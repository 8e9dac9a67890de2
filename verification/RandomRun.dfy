/** How the blocks that the random program generator emits run: every block is a segment that enters
    at its first word and leaves just after its last one, in an exact number of events. */
module RandomRun {
  import opened Rv64
  import opened Encoders

  const BASE: nat := 0x8000_0000
  const DATA: nat := 0x8010_0000
  const TOHOST: nat := 0x8010_FFF8
  const CODE_WORDS: nat := 8192
  const HANDLER: nat := BASE + 4 * CODE_WORDS
  const HANDLER_WORDS: nat := 7
  const NOP: nat := 0x13

  function Addr(k: nat): nat { BASE + 4 * k }

  /** The trap handler: skip the trapping word and give every register back. */
  function HandlerCode(): seq<nat> {
    [EncCsr(MSCRATCH, 31, 1, 31), EncCsr(MCAUSE, 31, 2, 0), EncCsr(MEPC, 31, 2, 0),
     EncI(0x13, 31, 0, 31, 4), EncCsr(MEPC, 0, 1, 31), EncCsr(MSCRATCH, 31, 1, 31), 0x3020_0073]
  }

  ghost predicate Placed(mem: map<int, int>, prog: seq<nat>) {
    forall k :: 0 <= k < |prog| ==> Fetch(mem, Addr(k)) == prog[k]
  }

  ghost predicate WithHandler(prog: seq<nat>) {
    |prog| == CODE_WORDS + HANDLER_WORDS && prog[CODE_WORDS..] == HandlerCode()
  }

  ghost predicate InRange(x: seq<int>) {
    |x| == 32 && forall r :: 1 <= r < 32 ==> 0 <= x[r] < TWO64
  }

  /** What holds between blocks: the two pointers, the trap vector, the privilege and the code. */
  ghost predicate Ready(s: Machine, prog: seq<nat>) {
    && WithHandler(prog)
    && Placed(s.mem, prog)
    && InRange(s.x)
    && s.x[1] == DATA && s.x[3] == TOHOST
    && 0 <= s.mtvec && s.mtvec / 4 * 4 == HANDLER
    && s.priv == 3
  }

  ghost predicate At(s: Machine, prog: seq<nat>, k: nat) {
    Ready(s, prog) && s.pc == Addr(k)
  }

  /** The address, size and value of the store the next event performs, if it performs one. */
  ghost predicate StoresTo(s: Machine, lo: nat, hi: nat) {
    var ins := Current(s);
    ins.Store? &&
    var a := (X(s, ins.rs1) + ins.imm) % TWO64;
    a % Size(ins.f3) == 0 && a < hi && lo < a + Size(ins.f3)
  }

  /** The event the host watches for: a retired doubleword store of a nonzero value to the mailbox. */
  ghost predicate SignalsHost(s: Machine) {
    var ins := Current(s);
    ins.Store? && Size(ins.f3) == 8 && (X(s, ins.rs1) + ins.imm) % TWO64 == TOHOST && X(s, ins.rs2) != 0
  }

  /** None of the next n events stores to any byte of the mailbox. */
  ghost predicate Quiet(alu: Alu, s: Machine, n: nat)
    decreases n
  {
    n == 0 || (!StoresTo(s, TOHOST, TOHOST + 8) && Quiet(alu, Step(alu, s), n - 1))
  }

  lemma {:induction false} QuietSplit(alu: Alu, s: Machine, m: nat, n: nat)
    requires Quiet(alu, s, m) && Quiet(alu, Run(alu, s, m), n)
    ensures Quiet(alu, s, m + n)
    decreases m
  {
    hide Step, StoresTo;
    if m > 0 {
      QuietSplit(alu, Step(alu, s), m - 1, n);
    }
  }

  /** n events lead from s to word j of the program, without a mailbox store. */
  ghost predicate Reaches(alu: Alu, s: Machine, prog: seq<nat>, j: nat, n: nat) {
    At(Run(alu, s, n), prog, j) && Quiet(alu, s, n)
  }

  lemma ReachesThen(alu: Alu, s: Machine, prog: seq<nat>, j: nat, m: nat, k: nat, n: nat)
    requires Reaches(alu, s, prog, j, m) && Reaches(alu, Run(alu, s, m), prog, k, n)
    ensures Reaches(alu, s, prog, k, m + n)
  {
    hide At, Step, Run;
    RunSplit(alu, s, m, n);
    QuietSplit(alu, s, m, n);
  }

  lemma ReachesOne(alu: Alu, s: Machine, prog: seq<nat>, j: nat)
    requires At(Step(alu, s), prog, j) && !StoresTo(s, TOHOST, TOHOST + 8)
    ensures Reaches(alu, s, prog, j, 1)
  {
    hide At, Step, StoresTo;
    assert Run(alu, Step(alu, s), 0) == Step(alu, s);
    assert Quiet(alu, Step(alu, s), 0);
  }

  ghost predicate Segment(alu: Alu, prog: seq<nat>, k: nat, j: nat, n: nat) {
    forall s :: At(s, prog, k) ==> Reaches(alu, s, prog, j, n)
  }

  ghost predicate Fits(prog: seq<nat>, k: nat, j: nat, block: seq<nat>) {
    WithHandler(prog) && j == k + |block| <= CODE_WORDS && prog[k..j] == block
  }

  /** Wherever the block sits in a program with the handler, it takes exactly n events to cross. */
  ghost predicate BlockRuns(block: seq<nat>, n: nat) {
    forall alu: Alu, prog: seq<nat>, k: nat, j: nat :: Fits(prog, k, j, block) ==> Segment(alu, prog, k, j, n)
  }

  lemma EmptyBlockRuns()
    ensures BlockRuns([], 0)
  {
    forall alu: Alu, prog: seq<nat>, k: nat, j: nat | Fits(prog, k, j, []) ensures Segment(alu, prog, k, j, 0) {
      forall s | At(s, prog, k) ensures Reaches(alu, s, prog, j, 0) {
      }
    }
  }

  lemma BlocksRun(a: seq<nat>, m: nat, b: seq<nat>, n: nat)
    requires BlockRuns(a, m) && BlockRuns(b, n)
    ensures BlockRuns(a + b, m + n)
  {
    var total := m + n;
    forall alu: Alu, prog: seq<nat>, k: nat, j: nat | Fits(prog, k, j, a + b)
      ensures Segment(alu, prog, k, j, total)
    {
      var i := k + |a|;
      assert prog[k..i] == prog[k..j][..|a|] == a;
      assert prog[i..j] == prog[k..j][|a|..] == b;
      assert Fits(prog, k, i, a) && Fits(prog, i, j, b);
      SegmentsRun(alu, prog, k, i, m, j, n);
    }
  }

  lemma SegmentsRun(alu: Alu, prog: seq<nat>, k: nat, i: nat, m: nat, j: nat, n: nat)
    requires Segment(alu, prog, k, i, m) && Segment(alu, prog, i, j, n)
    ensures Segment(alu, prog, k, j, m + n)
  {
    hide At, Run, Quiet;
    forall s | At(s, prog, k) ensures Reaches(alu, s, prog, j, m + n) {
      assert At(Run(alu, s, m), prog, i) by { assert Reaches(alu, s, prog, i, m); }
      ReachesThen(alu, s, prog, i, m, j, n);
    }
  }

  // --------------------------------------------------- single instructions

  lemma CurrentAt(s: Machine, prog: seq<nat>, k: nat, ins: Instr)
    requires At(s, prog, k) && k < |prog| && Decode(prog[k]) == ins
    ensures Current(s) == ins
  {
    hide Decode, Fetch;
  }

  /** Instructions that only compute a register. */
  predicate Computes(ins: Instr) {
    ins.OpImm? || ins.OpImmW? || ins.Op? || ins.OpW?
  }

  /** Computing any register but the two pointers keeps the program ready. */
  lemma ComputeStep(alu: Alu, s: Machine, prog: seq<nat>, k: nat, ins: Instr)
    requires At(s, prog, k) && k < |prog| && Decode(prog[k]) == ins && Computes(ins)
    requires ins.rd < 32 && ins.rd != 1 && ins.rd != 3
    ensures At(Step(alu, s), prog, k + 1) && !StoresTo(s, TOHOST, TOHOST + 8)
    ensures Step(alu, s).x == s.x[ins.rd := Step(alu, s).x[ins.rd]]
    ensures ins.OpImm? && ins.f3 == 0 && ins.rd != 0 ==> X(Step(alu, s), ins.rd) == (X(s, ins.rs1) + ins.imm) % TWO64
  {
    CurrentAt(s, prog, k, ins);
    hide Decode, Current, Fetch;
  }

  lemma ComputeBlock(w: nat, ins: Instr)
    requires Decode(w) == ins && Computes(ins) && ins.rd < 32 && ins.rd != 1 && ins.rd != 3
    ensures BlockRuns([w], 1)
  {
    hide Decode, At, Step, StoresTo, Computes;
    forall alu: Alu, prog: seq<nat>, k: nat, j: nat | Fits(prog, k, j, [w]) ensures Segment(alu, prog, k, j, 1) {
      assert prog[k] == prog[k..j][0] == w;
      forall s | At(s, prog, k) ensures Reaches(alu, s, prog, j, 1) {
        ComputeStep(alu, s, prog, k, ins);
        ReachesOne(alu, s, prog, j);
      }
    }
  }

  // ------------------------------------------------------ loads and stores

  lemma LoadBlock(w: nat, rd: nat, f3: nat, off: nat)
    requires Decode(w) == Load(rd, f3, 1, off) && rd < 32 && rd != 1 && rd != 3
    requires off < 0x800 && off % Size(f3) == 0
    ensures BlockRuns([w], 1)
  {
    hide Decode, At, Step, StoresTo;
    forall alu: Alu, prog: seq<nat>, k: nat, j: nat | Fits(prog, k, j, [w]) ensures Segment(alu, prog, k, j, 1) {
      assert prog[k] == prog[k..j][0] == w;
      forall s | At(s, prog, k) ensures Reaches(alu, s, prog, j, 1) {
        LoadStep(alu, s, prog, k, rd, f3, off);
        ReachesOne(alu, s, prog, j);
      }
    }
  }

  lemma Aligned(off: nat, f3: nat)
    requires off < 0x800 && off % Size(f3) == 0
    ensures (DATA + off) % TWO64 == DATA + off && (DATA + off) % Size(f3) == 0
  {
  }

  lemma LoadStep(alu: Alu, s: Machine, prog: seq<nat>, k: nat, rd: nat, f3: nat, off: nat)
    requires At(s, prog, k) && k < |prog| && Decode(prog[k]) == Load(rd, f3, 1, off)
    requires rd < 32 && rd != 1 && rd != 3 && off < 0x800 && off % Size(f3) == 0
    ensures At(Step(alu, s), prog, k + 1) && !StoresTo(s, TOHOST, TOHOST + 8)
  {
    CurrentAt(s, prog, k, Load(rd, f3, 1, off));
    Aligned(off, f3);
    hide Decode, Current, Fetch, Loaded, Size;
  }

  /** A store clear of the code leaves every word of the program in place. */
  lemma StoreKeepsCode(mem: map<int, int>, prog: seq<nat>, a: int, n: nat, v: int)
    requires Placed(mem, prog) && Addr(|prog|) <= a
    ensures Placed(Write(mem, a, n, v), prog)
  {
    hide Write, Fetch;
    forall k | 0 <= k < |prog| ensures Fetch(Write(mem, a, n, v), Addr(k)) == prog[k] {
      FetchFrame(mem, a, n, v, Addr(k));
    }
  }

  lemma StoreEffect(alu: Alu, s: Machine, prog: seq<nat>, k: nat, f3: nat, b: nat, off: nat)
    requires At(s, prog, k) && k < |prog| && Decode(prog[k]) == Store(f3, 1, b, off)
    requires off < 0x800 && off % Size(f3) == 0
    ensures Step(alu, s) == s.(pc := s.pc + 4, mem := Write(s.mem, DATA + off, Size(f3), X(s, b)))
    ensures Current(s) == Store(f3, 1, b, off) && X(s, 1) == DATA
  {
    CurrentAt(s, prog, k, Store(f3, 1, b, off));
    Aligned(off, f3);
    hide Decode, Current, Fetch, Write, Size, Placed, HandlerCode;
  }

  lemma StoreStep(alu: Alu, s: Machine, prog: seq<nat>, k: nat, f3: nat, b: nat, off: nat)
    requires At(s, prog, k) && k < |prog| && Decode(prog[k]) == Store(f3, 1, b, off)
    requires off % Size(f3) == 0 && off + Size(f3) <= 0x800
    ensures At(Step(alu, s), prog, k + 1) && !StoresTo(s, TOHOST, TOHOST + 8)
  {
    hide Decode, Current, Fetch, Write, Size, Placed, HandlerCode, Step;
    StoreEffect(alu, s, prog, k, f3, b, off);
    Aligned(off, f3);
    StoreKeepsCode(s.mem, prog, DATA + off, Size(f3), X(s, b));
  }

  lemma StoreBlock(w: nat, f3: nat, b: nat, off: nat)
    requires Decode(w) == Store(f3, 1, b, off) && off % Size(f3) == 0 && off + Size(f3) <= 0x800
    ensures BlockRuns([w], 1)
  {
    hide Decode, At, Step, StoresTo;
    forall alu: Alu, prog: seq<nat>, k: nat, j: nat | Fits(prog, k, j, [w]) ensures Segment(alu, prog, k, j, 1) {
      assert prog[k] == prog[k..j][0] == w;
      forall s | At(s, prog, k) ensures Reaches(alu, s, prog, j, 1) {
        StoreStep(alu, s, prog, k, f3, b, off);
        ReachesOne(alu, s, prog, j);
      }
    }
  }

  // -------------------------------------------------------------- CSR access

  lemma ModeBit(v: nat, c: nat)
    requires c < 2
    ensures var w := 2 * (v / 2) + c; var r := w / 4 * 4 + w % 2; r / 4 * 4 == v / 4 * 4
  {
    var q, m := v / 4, v % 4;
    assert v / 2 == 2 * q + m / 2;
    var w := 2 * (v / 2) + c;
    assert w == 4 * q + (2 * (m / 2) + c);
    assert w / 4 == q;
  }

  /** Setting or clearing the mode bit leaves the vector base alone. */
  lemma VectorKept(v: int, op: nat, src: nat)
    requires 0 <= v && (op == 6 || op == 7) && src < 2
    ensures var r := CsrResult(op, v, src) / 4 * 4 + CsrResult(op, v, src) % 2; 0 <= r && r / 4 * 4 == v / 4 * 4
  {
    ModeBit(v, v % 2);
    if src == 1 {
      assert BitOr(v / 2, 0) == v / 2 == BitClear(v / 2, 0);
      assert CsrResult(op, v, src) == 2 * (v / 2) + if op == 6 then 1 else 0;
      ModeBit(v, if op == 6 then 1 else 0);
    } else {
      assert CsrResult(op, v, src) == v == 2 * (v / 2) + v % 2;
    }
    hide CsrResult;
  }

  predicate SafeCsr(rd: nat, addr: nat, op: nat, src: nat) {
    rd < 32 && rd != 1 && rd != 3 && KnownCsr(addr) && (addr == MTVEC ==> (op == 6 || op == 7) && src < 2)
  }

  lemma CsrStep(alu: Alu, s: Machine, prog: seq<nat>, k: nat, rd: nat, addr: nat, op: nat, src: nat)
    requires At(s, prog, k) && k < |prog| && Decode(prog[k]) == Csr(rd, addr, op, src) && SafeCsr(rd, addr, op, src)
    ensures At(Step(alu, s), prog, k + 1) && !StoresTo(s, TOHOST, TOHOST + 8)
    ensures Step(alu, s) == ExecuteCsr(s, Csr(rd, addr, op, src))
  {
    CurrentAt(s, prog, k, Csr(rd, addr, op, src));
    if addr == MTVEC { VectorKept(s.mtvec, op, src); }
    hide Decode, Current, Fetch, CsrResult;
  }

  lemma CsrBlock(w: nat, rd: nat, addr: nat, op: nat, src: nat)
    requires Decode(w) == Csr(rd, addr, op, src) && SafeCsr(rd, addr, op, src)
    ensures BlockRuns([w], 1)
  {
    hide Decode, At, Step, StoresTo, SafeCsr;
    forall alu: Alu, prog: seq<nat>, k: nat, j: nat | Fits(prog, k, j, [w]) ensures Segment(alu, prog, k, j, 1) {
      assert prog[k] == prog[k..j][0] == w;
      forall s | At(s, prog, k) ensures Reaches(alu, s, prog, j, 1) {
        CsrStep(alu, s, prog, k, rd, addr, op, src);
        ReachesOne(alu, s, prog, j);
      }
    }
  }

  // ------------------------------------------------------------------- traps

  predicate Traps(ins: Instr) { ins.Ecall? || ins.Ebreak? || ins.Illegal? }

  /** The handler is entered with the trapping address saved and every register as it was. */
  lemma TrapStep(alu: Alu, s: Machine, prog: seq<nat>, k: nat)
    requires At(s, prog, k) && k < CODE_WORDS && Traps(Decode(prog[k]))
    ensures At(Step(alu, s), prog, CODE_WORDS) && !StoresTo(s, TOHOST, TOHOST + 8)
    ensures var t := Step(alu, s); t.x == s.x && t.mem == s.mem && t.mepc == Addr(k) && t.mpp == 3
  {
    CurrentAt(s, prog, k, Decode(prog[k]));
    hide Decode, Current, Fetch;
  }

  lemma HandlerDecodes(prog: seq<nat>)
    requires WithHandler(prog)
    ensures Decode(prog[CODE_WORDS]) == Csr(31, MSCRATCH, 1, 31)
            && Decode(prog[CODE_WORDS + 1]) == Csr(31, MCAUSE, 2, 0)
    ensures Decode(prog[CODE_WORDS + 2]) == Csr(31, MEPC, 2, 0) && Decode(prog[CODE_WORDS + 3]) == OpImm(31, 0, 31, 4)
    ensures Decode(prog[CODE_WORDS + 4]) == Csr(0, MEPC, 1, 31)
            && Decode(prog[CODE_WORDS + 5]) == Csr(31, MSCRATCH, 1, 31)
    ensures Decode(prog[CODE_WORDS + 6]) == Mret
  {
    forall i | 0 <= i < 7 ensures prog[CODE_WORDS + i] == HandlerCode()[i] {
      assert prog[CODE_WORDS..][i] == prog[CODE_WORDS + i];
    }
    DecodeCsr(MSCRATCH, 31, 1, 31);
    DecodeCsr(MCAUSE, 31, 2, 0);
    DecodeCsr(MEPC, 31, 2, 0);
    DecodeAddi(31, 31, 4);
    DecodeCsr(MEPC, 0, 1, 31);
    hide EncCsr, EncI;
  }

  lemma DecodeAddi(rd: nat, rs: nat, imm: int)
    requires rd < 0x20 && rs < 0x20 && -0x800 <= imm < 0x800
    ensures EncI(0x13, rd, 0, rs, imm) < TWO32
    ensures Decode(EncI(0x13, rd, 0, rs, imm)) == OpImm(rd, 0, rs, imm)
  {
    FieldsI(0x13, rd, 0, rs, imm);
    hide EncI, Rd, Rs1, Funct3, Imm12, ImmI;
  }

  /** Swapping x31 with mscratch, at either end of the handler. */
  lemma SwapStep(alu: Alu, s: Machine, prog: seq<nat>, k: nat)
    requires At(s, prog, k) && k < |prog| && Decode(prog[k]) == Csr(31, MSCRATCH, 1, 31)
    ensures At(Step(alu, s), prog, k + 1) && Reaches(alu, s, prog, k + 1, 1)
    ensures Step(alu, s) == s.(pc := s.pc + 4, mscratch := s.x[31], x := s.x[31 := s.mscratch % TWO64])
  {
    CsrStep(alu, s, prog, k, 31, MSCRATCH, 1, 31);
    ReachesOne(alu, s, prog, k + 1);
    hide Decode, At, Step, StoresTo, Reaches;
    assert X(s, 31) == s.x[31] by { RangeOf(s, prog, k); }
  }

  lemma RangeOf(s: Machine, prog: seq<nat>, k: nat)
    requires At(s, prog, k)
    ensures |s.x| == 32 && 0 <= s.x[31] < TWO64 && WithHandler(prog)
  {
  }

  lemma ReadStep(alu: Alu, s: Machine, prog: seq<nat>, k: nat, addr: nat)
    requires At(s, prog, k) && k < |prog| && Decode(prog[k]) == Csr(31, addr, 2, 0) && KnownCsr(addr) && addr != MTVEC
    ensures At(Step(alu, s), prog, k + 1) && Reaches(alu, s, prog, k + 1, 1) && |s.x| == 32
    ensures Step(alu, s) == s.(pc := s.pc + 4, x := s.x[31 := ReadCsr(s, addr) % TWO64])
  {
    CsrStep(alu, s, prog, k, 31, addr, 2, 0);
    ReachesOne(alu, s, prog, k + 1);
    RangeOf(s, prog, k);
    hide Decode, At, Step, StoresTo, Reaches;
  }

  lemma ReturnAddressStep(alu: Alu, s: Machine, prog: seq<nat>, k: nat)
    requires At(s, prog, k) && k < |prog| && Decode(prog[k]) == Csr(0, MEPC, 1, 31)
    ensures At(Step(alu, s), prog, k + 1) && Reaches(alu, s, prog, k + 1, 1) && |s.x| == 32
    ensures Step(alu, s) == s.(pc := s.pc + 4, mepc := s.x[31] / 4 * 4)
  {
    CsrStep(alu, s, prog, k, 0, MEPC, 1, 31);
    ReachesOne(alu, s, prog, k + 1);
    RangeOf(s, prog, k);
    hide Decode, At, Step, StoresTo, Reaches;
  }

  lemma SkipStep(alu: Alu, s: Machine, prog: seq<nat>, k: nat)
    requires At(s, prog, k) && k < |prog| && Decode(prog[k]) == OpImm(31, 0, 31, 4)
    ensures At(Step(alu, s), prog, k + 1) && Reaches(alu, s, prog, k + 1, 1) && |s.x| == 32
    ensures Step(alu, s) == s.(pc := s.pc + 4, x := s.x[31 := (s.x[31] + 4) % TWO64])
  {
    ComputeStep(alu, s, prog, k, OpImm(31, 0, 31, 4));
    ReachesOne(alu, s, prog, k + 1);
    CurrentAt(s, prog, k, OpImm(31, 0, 31, 4));
    RangeOf(s, prog, k);
    hide Decode, At, StoresTo, Reaches, Current;
  }

  lemma ReturnStep(alu: Alu, s: Machine, prog: seq<nat>, k: nat, j: nat)
    requires At(s, prog, k) && k < |prog| && Decode(prog[k]) == Mret && s.mepc == Addr(j) && s.mpp == 3
    ensures At(Step(alu, s), prog, j) && Reaches(alu, s, prog, j, 1)
    ensures Step(alu, s).x == s.x
  {
    CurrentAt(s, prog, k, Mret);
    assert At(Step(alu, s), prog, j) && !StoresTo(s, TOHOST, TOHOST + 8) by { hide Decode, Current, Fetch; }
    ReachesOne(alu, s, prog, j);
    hide Decode, Reaches, Current, Fetch;
  }

  /** A trapping word costs eight events: the trap and the seven words of the handler. Every register,
      x31 included, comes back as it was, and execution goes on at the next word. */
  lemma TrapRoundTrip(alu: Alu, s: Machine, prog: seq<nat>, k: nat)
    requires At(s, prog, k) && k < CODE_WORDS && Traps(Decode(prog[k]))
    ensures Reaches(alu, s, prog, k + 1, 8) && Run(alu, s, 8).x == s.x
  {
    hide Decode, Step, StoresTo, Reaches, Run, HandlerCode;
    var c := CODE_WORDS;
    RangeOf(s, prog, k);
    HandlerDecodes(prog);
    TrapStep(alu, s, prog, k);
    ReachesOne(alu, s, prog, c);
    var s0 := Step(alu, s);
    SwapStep(alu, s0, prog, c);
    var s1 := Step(alu, s0);
    ReadStep(alu, s1, prog, c + 1, MCAUSE);
    var s2 := Step(alu, s1);
    ReadStep(alu, s2, prog, c + 2, MEPC);
    var s3 := Step(alu, s2);
    SkipStep(alu, s3, prog, c + 3);
    var s4 := Step(alu, s3);
    ReturnAddressStep(alu, s4, prog, c + 4);
    var s5 := Step(alu, s4);
    SwapStep(alu, s5, prog, c + 5);
    var s6 := Step(alu, s5);
    HandlerEffect(s.x, s0.mscratch, Addr(k), s1.x, s2.x, s3.x, s4.x, s5.x, s6.x, s1.mscratch, s5.mepc);
    ReturnStep(alu, s6, prog, c + 6, k + 1);
    EightSteps(alu, s, s0, s1, s2, s3, s4, s5, s6, prog, k + 1);
  }

  /** The register file and the two trap registers across the handler. */
  lemma HandlerEffect(x: seq<int>, scratch: int, pc: int, x1: seq<int>, x2: seq<int>, x3: seq<int>,
                      x4: seq<int>, x5: seq<int>, x6: seq<int>, saved: int, mepc: int)
    requires |x| == 32 && 0 <= x[31] < TWO64 && 0 <= pc < TWO64 - 4 && pc % 4 == 0
    requires saved == x[31] && x1 == x[31 := scratch % TWO64] && |x2| == 32 && x2 == x1[31 := x2[31]]
    requires x3 == x2[31 := pc % TWO64] && x4 == x3[31 := (x3[31] + 4) % TWO64] && x5 == x4
    requires mepc == x4[31] / 4 * 4 && x6 == x5[31 := saved % TWO64]
    ensures x6 == x && mepc == pc + 4
  {
  }

  lemma EightSteps(alu: Alu, s: Machine, s0: Machine, s1: Machine, s2: Machine, s3: Machine, s4: Machine,
                   s5: Machine, s6: Machine, prog: seq<nat>, j: nat)
    requires s0 == Step(alu, s) && s1 == Step(alu, s0) && s2 == Step(alu, s1) && s3 == Step(alu, s2)
    requires s4 == Step(alu, s3) && s5 == Step(alu, s4) && s6 == Step(alu, s5)
    requires Reaches(alu, s, prog, CODE_WORDS, 1) && Reaches(alu, s0, prog, CODE_WORDS + 1, 1)
    requires Reaches(alu, s1, prog, CODE_WORDS + 2, 1) && Reaches(alu, s2, prog, CODE_WORDS + 3, 1)
    requires Reaches(alu, s3, prog, CODE_WORDS + 4, 1) && Reaches(alu, s4, prog, CODE_WORDS + 5, 1)
    requires Reaches(alu, s5, prog, CODE_WORDS + 6, 1) && Reaches(alu, s6, prog, j, 1)
    ensures Reaches(alu, s, prog, j, 8) && Run(alu, s, 8) == Step(alu, s6)
  {
    hide Step, At, Quiet, Reaches;
    ReachesNext(alu, s5, s6, prog, CODE_WORDS + 6, j, 1);
    ReachesNext(alu, s4, s5, prog, CODE_WORDS + 5, j, 2);
    ReachesNext(alu, s3, s4, prog, CODE_WORDS + 4, j, 3);
    ReachesNext(alu, s2, s3, prog, CODE_WORDS + 3, j, 4);
    ReachesNext(alu, s1, s2, prog, CODE_WORDS + 2, j, 5);
    ReachesNext(alu, s0, s1, prog, CODE_WORDS + 1, j, 6);
    ReachesNext(alu, s, s0, prog, CODE_WORDS, j, 7);
    assert Run(alu, Step(alu, s6), 0) == Step(alu, s6);
  }

  lemma ReachesNext(alu: Alu, s: Machine, t: Machine, prog: seq<nat>, i: nat, j: nat, n: nat)
    requires t == Step(alu, s) && Reaches(alu, s, prog, i, 1) && Reaches(alu, t, prog, j, n)
    ensures Reaches(alu, s, prog, j, 1 + n) && Run(alu, s, 1 + n) == Run(alu, t, n)
  {
    hide Step, At, Quiet;
    assert Run(alu, t, 0) == t;
    assert Run(alu, s, 1) == t;
    ReachesThen(alu, s, prog, i, 1, j, n);
  }

  lemma TrapBlock(w: nat)
    requires Traps(Decode(w))
    ensures BlockRuns([w], 8)
  {
    hide Decode, At, Reaches, Run, Traps;
    forall alu: Alu, prog: seq<nat>, k: nat, j: nat | Fits(prog, k, j, [w]) ensures Segment(alu, prog, k, j, 8) {
      assert prog[k] == prog[k..j][0] == w;
      forall s | At(s, prog, k) ensures Reaches(alu, s, prog, j, 8) {
        TrapRoundTrip(alu, s, prog, k);
      }
    }
  }

  // -------------------------------------------------------- jumps and loops

  lemma BranchStep(alu: Alu, s: Machine, prog: seq<nat>, k: nat, f3: nat, a: nat, b: nat, off: int, j: nat)
    requires At(s, prog, k) && k < |prog| && Decode(prog[k]) == Branch(f3, a, b, off)
    requires Addr(j) == if Taken(f3, X(s, a), X(s, b)) then Addr(k) + off else Addr(k + 1)
    ensures At(Step(alu, s), prog, j) && Reaches(alu, s, prog, j, 1) && Step(alu, s).x == s.x
  {
    CurrentAt(s, prog, k, Branch(f3, a, b, off));
    assert At(Step(alu, s), prog, j) && !StoresTo(s, TOHOST, TOHOST + 8) by { hide Decode, Current, Fetch, Taken; }
    ReachesOne(alu, s, prog, j);
    hide Decode, Reaches, Current, Fetch, Taken;
  }

  lemma SkipBranchRuns(alu: Alu, s: Machine, prog: seq<nat>, k: nat, f3: nat, ins: Instr)
    requires At(s, prog, k) && k + 2 <= |prog| && Decode(prog[k]) == Branch(f3, 0, 0, 8)
    requires Decode(prog[k + 1]) == ins && Computes(ins) && 3 < ins.rd < 32
    requires f3 == 0 || f3 == 1 || f3 == 4 || f3 == 5 || f3 == 6 || f3 == 7
    ensures Reaches(alu, s, prog, k + 2, if f3 == 0 || f3 == 5 || f3 == 7 then 1 else 2)
  {
    hide Decode, At, Run, Computes, Step, X, Reaches;
    var taken := f3 == 0 || f3 == 5 || f3 == 7;
    assert Taken(f3, X(s, 0), X(s, 0)) == taken;
    BranchStep(alu, s, prog, k, f3, 0, 0, 8, if taken then k + 2 else k + 1);
    if !taken {
      var t := Step(alu, s);
      ComputeStep(alu, t, prog, k + 1, ins);
      ReachesOne(alu, t, prog, k + 2);
      ReachesNext(alu, s, t, prog, k + 1, k + 2, 1);
    }
  }

  lemma SkipBranchBlock(w: nat, v: nat, f3: nat, ins: Instr)
    requires Decode(w) == Branch(f3, 0, 0, 8) && Decode(v) == ins && Computes(ins) && 3 < ins.rd < 32
    requires f3 == 0 || f3 == 1 || f3 == 4 || f3 == 5 || f3 == 6 || f3 == 7
    ensures BlockRuns([w, v], if f3 == 0 || f3 == 5 || f3 == 7 then 1 else 2)
  {
    hide Decode, At, Reaches, Run, Computes;
    var n := if f3 == 0 || f3 == 5 || f3 == 7 then 1 else 2;
    forall alu: Alu, prog: seq<nat>, k: nat, j: nat | Fits(prog, k, j, [w, v]) ensures Segment(alu, prog, k, j, n) {
      assert prog[k] == prog[k..j][0] == w && prog[k + 1] == prog[k..j][1] == v;
      forall s | At(s, prog, k) ensures Reaches(alu, s, prog, j, n) {
        SkipBranchRuns(alu, s, prog, k, f3, ins);
      }
    }
  }

  lemma JumpBlock(w: nat, v: nat, rd: nat)
    requires Decode(w) == Jal(rd, 8) && rd < 32 && rd != 1 && rd != 3
    ensures BlockRuns([w, v], 1)
  {
    hide Decode, At, Reaches, Run;
    forall alu: Alu, prog: seq<nat>, k: nat, j: nat | Fits(prog, k, j, [w, v]) ensures Segment(alu, prog, k, j, 1) {
      assert prog[k] == prog[k..j][0] == w;
      forall s | At(s, prog, k) ensures Reaches(alu, s, prog, j, 1) {
        JumpStep(alu, s, prog, k, rd);
      }
    }
  }

  lemma JumpStep(alu: Alu, s: Machine, prog: seq<nat>, k: nat, rd: nat)
    requires At(s, prog, k) && k < |prog| && Decode(prog[k]) == Jal(rd, 8) && rd < 32 && rd != 1 && rd != 3
    ensures Reaches(alu, s, prog, k + 2, 1)
  {
    CurrentAt(s, prog, k, Jal(rd, 8));
    assert At(Step(alu, s), prog, k + 2) && !StoresTo(s, TOHOST, TOHOST + 8) by { hide Decode, Current, Fetch; }
    ReachesOne(alu, s, prog, k + 2);
  }

  lemma RunThree(alu: Alu, s: Machine, s1: Machine, s2: Machine, s3: Machine)
    requires s1 == Step(alu, s) && s2 == Step(alu, s1) && s3 == Step(alu, s2)
    ensures Run(alu, s, 3) == s3
  {
    hide Step;
    assert Run(alu, s3, 0) == s3;
    assert Run(alu, s2, 1) == s3;
    assert Run(alu, s1, 2) == s3;
  }

  /** The three words of a countdown that are left once x2 holds the count. */
  predicate Countdown(prog: seq<nat>, k: nat, rd: nat) {
    k + 4 <= |prog| && 3 < rd < 32 && Decode(prog[k + 1]) == OpImm(rd, 0, rd, 1)
    && Decode(prog[k + 2]) == OpImm(2, 0, 2, -1) && Decode(prog[k + 3]) == Branch(1, 2, 0, -8)
  }

  lemma AddiStep(alu: Alu, s: Machine, prog: seq<nat>, k: nat, rd: nat, rs: nat, imm: int)
    requires At(s, prog, k) && k < |prog| && Decode(prog[k]) == OpImm(rd, 0, rs, imm) && rd < 32 && rd != 0 && rd != 1
             && rd != 3
    ensures At(Step(alu, s), prog, k + 1) && Reaches(alu, s, prog, k + 1, 1)
    ensures X(Step(alu, s), rd) == (X(s, rs) + imm) % TWO64
    ensures rd != 2 ==> X(Step(alu, s), 2) == X(s, 2)
  {
    RangeOfX2(s, prog, k);
    ComputeStep(alu, s, prog, k, OpImm(rd, 0, rs, imm));
    ReachesOne(alu, s, prog, k + 1);
    hide Decode, At, Step, StoresTo, Reaches;
  }

  /** One turn of the countdown: three events, one less in x2, and back while x2 is not zero. */
  lemma LoopTurn(alu: Alu, s: Machine, prog: seq<nat>, k: nat, rd: nat)
    requires At(s, prog, k + 1) && Countdown(prog, k, rd) && X(s, 2) > 0
    ensures var j := if X(s, 2) == 1 then k + 4 else k + 1;
            Reaches(alu, s, prog, j, 3) && X(Run(alu, s, 3), 2) == X(s, 2) - 1
  {
    hide At, Step, Reaches, Run, X;
    CountdownAt(s, prog, k, rd);
    AddiStep(alu, s, prog, k + 1, rd, rd, 1);
    var t := Step(alu, s);
    AddiStep(alu, t, prog, k + 2, 2, 2, -1);
    var u := Step(alu, t);
    var j := if X(s, 2) == 1 then k + 4 else k + 1;
    BranchAgain(alu, u, prog, k, rd, j);
    ReachesNext(alu, t, u, prog, k + 3, j, 1);
    ReachesNext(alu, s, t, prog, k + 2, j, 2);
    RunThree(alu, s, t, u, Step(alu, u));
  }

  lemma CountdownAt(s: Machine, prog: seq<nat>, k: nat, rd: nat)
    requires At(s, prog, k + 1) && Countdown(prog, k, rd)
    ensures k + 4 <= |prog| && 3 < rd < 32 && X(s, 2) < TWO64
  {
    RangeOfX2(s, prog, k + 1);
  }

  lemma RangeOfX2(s: Machine, prog: seq<nat>, k: nat)
    requires At(s, prog, k)
    ensures |s.x| == 32 && 0 <= s.x[2] < TWO64
  {
  }

  lemma BranchAgain(alu: Alu, u: Machine, prog: seq<nat>, k: nat, rd: nat, j: nat)
    requires At(u, prog, k + 3) && Countdown(prog, k, rd) && j == if X(u, 2) == 0 then k + 4 else k + 1
    ensures Reaches(alu, u, prog, j, 1) && X(Step(alu, u), 2) == X(u, 2)
  {
    hide At, Reaches, Step;
    assert Addr(j) == if Taken(1, X(u, 2), X(u, 0)) then Addr(k + 3) - 8 else Addr(k + 4);
    BranchStep(alu, u, prog, k + 3, 1, 2, 0, -8, j);
  }

  lemma {:induction false} LoopRuns(alu: Alu, s: Machine, prog: seq<nat>, k: nat, rd: nat, n: nat)
    requires At(s, prog, k + 1) && Countdown(prog, k, rd) && X(s, 2) == n > 0
    ensures Reaches(alu, s, prog, k + 4, 3 * n)
    decreases n
  {
    hide At, Run, Quiet, Countdown, X;
    LoopTurn(alu, s, prog, k, rd);
    if n > 1 {
      var t := Run(alu, s, 3);
      LoopRuns(alu, t, prog, k, rd, n - 1);
      ReachesThen(alu, s, prog, k + 1, 3, k + 4, 3 * (n - 1));
    }
  }

  /** The countdown block takes one event to set x2 and three for each turn, whatever else x2 held. */
  lemma LoopBlock(w0: nat, w1: nat, w2: nat, w3: nat, rd: nat, n: nat)
    requires 1 <= n <= 8 && 3 < rd < 32 && Decode(w0) == OpImm(2, 0, 0, n) && Decode(w1) == OpImm(rd, 0, rd, 1)
    requires Decode(w2) == OpImm(2, 0, 2, -1) && Decode(w3) == Branch(1, 2, 0, -8)
    ensures BlockRuns([w0, w1, w2, w3], 1 + 3 * n)
  {
    hide Decode, At, Reaches, Run;
    var total := 1 + 3 * n;
    var block := [w0, w1, w2, w3];
    forall alu: Alu, prog: seq<nat>, k: nat, j: nat | Fits(prog, k, j, block) ensures Segment(alu, prog, k, j, total) {
      assert forall i | 0 <= i < 4 :: prog[k + i] == prog[k..j][i] == block[i];
      assert prog[k + 0] == w0 && prog[k + 1] == w1 && prog[k + 2] == w2 && prog[k + 3] == w3;
      forall s | At(s, prog, k) ensures Reaches(alu, s, prog, j, total) {
        ComputeStep(alu, s, prog, k, OpImm(2, 0, 0, n));
        ReachesOne(alu, s, prog, k + 1);
        var t := Step(alu, s);
        LoopRuns(alu, t, prog, k, rd, n);
        ReachesNext(alu, s, t, prog, k + 1, j, 3 * n);
      }
    }
  }
}
