/** The random program generator, for every sequence of random choices it can make. */
module RandomProgram {
  import opened Rv64
  import opened Encoders
  import opened RandomRun

  // -------------------------------------------------- entry and final words

  /** Reset state with the program in memory: nothing is known of registers, traps or data. */
  ghost predicate Boot(s: Machine, prog: seq<nat>, k: nat) {
    WithHandler(prog) && Placed(s.mem, prog) && InRange(s.x) && s.priv == 3 && s.pc == Addr(k)
  }

  function Prologue(): seq<nat> {
    [0x0010_0097, 0x0011_0197, EncI(0x13, 3, 0, 3, -12), 0x0000_8117, EncI(0x13, 2, 0, 2, -12), EncCsr(MTVEC, 0, 1, 2)]
  }

  function Epilogue(): seq<nat> {
    [EncI(0x13, 2, 0, 0, 1), EncStore(3, 3, 2, 0), EncJal(0, 0)]
  }

  lemma BootStep(alu: Alu, s: Machine, prog: seq<nat>, k: nat, ins: Instr)
    requires Boot(s, prog, k) && k < |prog| && Decode(prog[k]) == ins
    requires (ins.OpImm? && ins.f3 == 0) || (ins.Auipc? && 0 <= ins.imm < 0x8000_0000)
    requires ins.rd < 32
    ensures Boot(Step(alu, s), prog, k + 1) && !StoresTo(s, TOHOST, TOHOST + 8) && |s.x| == 32
    ensures ins.rd != 0 ==>
              Step(alu, s).x == s.x[ins.rd := ((if ins.Auipc? then Addr(k) else X(s, ins.rs1)) + ins.imm) % TWO64]
  {
    assert Current(s) == ins by { hide Decode, Fetch; }
    hide Decode, Current, Fetch;
  }

  lemma BootVector(alu: Alu, s: Machine, prog: seq<nat>, k: nat)
    requires Boot(s, prog, k) && k < |prog| && Decode(prog[k]) == Csr(0, MTVEC, 1, 2)
    requires X(s, 1) == DATA && X(s, 3) == TOHOST && X(s, 2) == HANDLER
    ensures At(Step(alu, s), prog, k + 1) && !StoresTo(s, TOHOST, TOHOST + 8)
  {
    assert Current(s) == Csr(0, MTVEC, 1, 2) by { hide Decode, Fetch; }
    hide Decode, Current, Fetch;
  }

  lemma PointerWords()
    ensures Decode(0x0010_0097) == Auipc(1, 0x10_0000)
    ensures Decode(0x0011_0197) == Auipc(3, 0x11_0000)
    ensures Decode(0x0000_8117) == Auipc(2, 0x8000)
  {
  }

  lemma PrologueDecodes()
    ensures Decode(Prologue()[0]) == Auipc(1, 0x10_0000) && Decode(Prologue()[1]) == Auipc(3, 0x11_0000)
    ensures Decode(Prologue()[2]) == OpImm(3, 0, 3, -12) && Decode(Prologue()[3]) == Auipc(2, 0x8000)
    ensures Decode(Prologue()[4]) == OpImm(2, 0, 2, -12) && Decode(Prologue()[5]) == Csr(0, MTVEC, 1, 2)
    ensures forall i :: 0 <= i < 6 ==> Prologue()[i] < TWO32
  {
    hide Decode, EncI, EncCsr;
    PointerWords();
    DecodeAddi(3, 3, -12);
    DecodeAddi(2, 2, -12);
    DecodeCsr(MTVEC, 0, 1, 2);
  }

  /** The six setup words point x1 at the data, x3 at the mailbox and the trap vector at the handler. */
  lemma PrologueRuns(alu: Alu, s: Machine, prog: seq<nat>)
    requires Boot(s, prog, 0) && prog[..6] == Prologue()
    ensures Reaches(alu, s, prog, 6, 6)
  {
    hide Decode, Boot, At, Step, StoresTo, Prologue, Run, Quiet;
    BootSize(s, prog, 0);
    forall i | 0 <= i < 6 ensures prog[i] == Prologue()[i] { assert prog[..6][i] == prog[i]; }
    PrologueDecodes();
    BootStep(alu, s, prog, 0, Auipc(1, 0x10_0000));
    var s1 := Step(alu, s);
    BootStep(alu, s1, prog, 1, Auipc(3, 0x11_0000));
    var s2 := Step(alu, s1);
    BootStep(alu, s2, prog, 2, OpImm(3, 0, 3, -12));
    var s3 := Step(alu, s2);
    BootStep(alu, s3, prog, 3, Auipc(2, 0x8000));
    var s4 := Step(alu, s3);
    BootStep(alu, s4, prog, 4, OpImm(2, 0, 2, -12));
    var s5 := Step(alu, s4);
    BootSize(s5, prog, 5);
    PrologueEffect(s.x, s1.x, s2.x, s3.x, s4.x, s5.x);
    BootVector(alu, s5, prog, 5);
    SixSteps(alu, s, s1, s2, s3, s4, s5, prog);
  }

  lemma PrologueEffect(x: seq<int>, x1: seq<int>, x2: seq<int>, x3: seq<int>, x4: seq<int>, x5: seq<int>)
    requires |x| == 32 && x1 == x[1 := (Addr(0) + 0x10_0000) % TWO64] && x2 == x1[3 := (Addr(1) + 0x11_0000) % TWO64]
    requires x3 == x2[3 := (x2[3] - 12) % TWO64] && x4 == x3[2 := (Addr(3) + 0x8000) % TWO64]
    requires x5 == x4[2 := (x4[2] - 12) % TWO64]
    ensures x5[1] == DATA && x5[3] == TOHOST && x5[2] == HANDLER
  {
  }

  lemma BootSize(s: Machine, prog: seq<nat>, k: nat)
    requires Boot(s, prog, k)
    ensures |s.x| == 32 && s.pc == Addr(k) && |prog| == CODE_WORDS + HANDLER_WORDS
  {
  }

  lemma SixSteps(alu: Alu, s: Machine, s1: Machine, s2: Machine, s3: Machine, s4: Machine, s5: Machine, prog: seq<nat>)
    requires s1 == Step(alu, s) && s2 == Step(alu, s1) && s3 == Step(alu, s2) && s4 == Step(alu, s3)
             && s5 == Step(alu, s4)
    requires !StoresTo(s, TOHOST, TOHOST + 8) && !StoresTo(s1, TOHOST, TOHOST + 8) && !StoresTo(s2, TOHOST, TOHOST + 8)
    requires !StoresTo(s3, TOHOST, TOHOST + 8) && !StoresTo(s4, TOHOST, TOHOST + 8) && !StoresTo(s5, TOHOST, TOHOST + 8)
    requires At(Step(alu, s5), prog, 6)
    ensures Reaches(alu, s, prog, 6, 6)
  {
    hide Step, StoresTo, At;
    var s6 := Step(alu, s5);
    assert Run(alu, s6, 0) == s6 && Quiet(alu, s6, 0);
    assert Run(alu, s5, 1) == s6 && Quiet(alu, s5, 1);
    assert Run(alu, s4, 2) == s6 && Quiet(alu, s4, 2);
    assert Run(alu, s3, 3) == s6 && Quiet(alu, s3, 3);
    assert Run(alu, s2, 4) == s6 && Quiet(alu, s2, 4);
    assert Run(alu, s1, 5) == s6 && Quiet(alu, s1, 5);
  }

  /** Event number n, counted from one, is the first that touches the mailbox, and reports success. */
  ghost predicate ReportsAt(alu: Alu, s: Machine, n: nat) {
    && n >= 1
    && SignalsHost(Run(alu, s, n - 1))
    && X(Run(alu, s, n - 1), Current(Run(alu, s, n - 1)).rs2) == 1
    && forall m: nat :: m < n - 1 ==> !StoresTo(Run(alu, s, m), TOHOST, TOHOST + 8)
  }

  lemma {:induction false} QuietMeans(alu: Alu, s: Machine, n: nat, m: nat)
    requires Quiet(alu, s, n) && m < n
    ensures !StoresTo(Run(alu, s, m), TOHOST, TOHOST + 8)
    decreases m
  {
    hide Step, StoresTo;
    if m > 0 {
      QuietMeans(alu, Step(alu, s), n - 1, m - 1);
    }
  }

  lemma EpilogueDecodes()
    ensures Decode(Epilogue()[0]) == OpImm(2, 0, 0, 1) && Decode(Epilogue()[1]) == Store(3, 3, 2, 0)
    ensures Decode(Epilogue()[2]) == Jal(0, 0)
    ensures forall i :: 0 <= i < 3 ==> Epilogue()[i] < TWO32
  {
    hide Decode, EncI, EncStore, EncJal;
    DecodeAddi(2, 0, 1);
    DecodeStore(3, 3, 2, 0);
    DecodeJal(0, 0);
  }

  lemma FinalStore(alu: Alu, s: Machine, prog: seq<nat>, k: nat)
    requires At(s, prog, k) && k + 3 <= |prog| && prog[k..k + 3] == Epilogue()
    ensures Reaches(alu, s, prog, k + 1, 1)
    ensures var t := Run(alu, s, 1); SignalsHost(t) && Current(t) == Store(3, 3, 2, 0) && X(t, 2) == 1
  {
    hide Decode, Step, Epilogue, At, Reaches, Current, X, SignalsHost;
    assert prog[k] == prog[k..k + 3][0] && prog[k + 1] == prog[k..k + 3][1];
    EpilogueDecodes();
    AddiStep(alu, s, prog, k, 2, 0, 1);
    var t := Step(alu, s);
    assert Run(alu, t, 0) == t == Run(alu, s, 1);
    assert X(s, 0) == 0 by { ZeroRegister(s); }
    CurrentAt(t, prog, k + 1, Store(3, 3, 2, 0));
    MailboxStore(t, prog, k + 1);
  }

  lemma ZeroRegister(s: Machine)
    ensures X(s, 0) == 0
  {
  }

  lemma MailboxStore(t: Machine, prog: seq<nat>, k: nat)
    requires At(t, prog, k) && Current(t) == Store(3, 3, 2, 0) && X(t, 2) == 1
    ensures SignalsHost(t)
  {
    hide Current;
  }

  /** The claim the generator makes of its output, whatever the arithmetic computes. */
  ghost predicate Exact(words: seq<nat>, n: nat) {
    forall alu: Alu, s: Machine :: Boot(s, words, 0) ==> ReportsAt(alu, s, n)
  }

  /** Setup, a body of n events, the report, padding and the handler: n + 8 events. */
  lemma ProgramReports(body: seq<nat>, n: nat, words: seq<nat>)
    requires BlockRuns(body, n) && 6 + |body| + 3 <= CODE_WORDS && WithHandler(words)
    requires words[..6] == Prologue() && words[6..6 + |body|] == body
    requires words[6 + |body|..6 + |body| + 3] == Epilogue()
    ensures Exact(words, n + 8)
  {
    var e := 6 + |body|;
    hide At, Boot, Run, Quiet, SignalsHost, StoresTo, Epilogue, Prologue, HandlerCode, Current;
    var last := n + 8;
    forall alu: Alu, s: Machine | Boot(s, words, 0) ensures ReportsAt(alu, s, last) {
      PrologueRuns(alu, s, words);
      assert Fits(words, 6, e, body);
      assert Segment(alu, words, 6, e, n);
      var t := Run(alu, s, 6);
      assert Reaches(alu, t, words, e, n);
      ReachesThen(alu, s, words, 6, 6, e, n);
      var u := Run(alu, s, 6 + n);
      FinalStore(alu, u, words, e);
      ReachesThen(alu, s, words, e, 6 + n, e + 1, 1);
      RunSplit(alu, s, 6 + n, 1);
      forall m: nat | m < n + 7 ensures !StoresTo(Run(alu, s, m), TOHOST, TOHOST + 8) {
        QuietMeans(alu, s, n + 7, m);
      }
    }
  }

  // ------------------------------------------------------------ the generator

  /** 32-bit words of legal RV64I, but for the one word chosen because it is illegal. */
  predicate Legal(words: seq<nat>) {
    forall k :: 0 <= k < |words| ==> words[k] < TWO32 && (Decode(words[k]).Illegal? ==> words[k] == 0x0000_000b)
  }

  /** Memory with the words of a program laid out from BASE, little-endian, and nothing else. */
  function Image(words: seq<nat>): map<int, int> {
    map a | BASE <= a < BASE + 4 * |words| :: ImageByte(words, a)
  }

  function ImageByte(words: seq<nat>, a: int): int
    requires BASE <= a < BASE + 4 * |words|
  {
    ByteOf(words[(a - BASE) / 4], (a - BASE) % 4)
  }

  function ByteOf(w: nat, i: int): int {
    if i == 0 then w % 0x100 else if i == 1 then w / 0x100 % 0x100
    else if i == 2 then w / 0x1_0000 % 0x100 else w / 0x100_0000 % 0x100
  }

  /** A machine that boots a generated program exists: the theorem about booting it speaks of something. */
  lemma Bootable(words: seq<nat>)
    requires Legal(words) && WithHandler(words)
    ensures Boot(Machine(BASE, seq(32, _ => 0), Image(words), 3, 0, 0, 0, 0, 0, 0), words, 0)
  {
    hide Decode, HandlerCode, Fetch, Image;
    forall k | 0 <= k < |words| ensures Fetch(Image(words), Addr(k)) == words[k] {
      ImageWord(words, k);
    }
  }

  lemma ImageWord(words: seq<nat>, k: nat)
    requires k < |words| && words[k] < TWO32
    ensures Fetch(Image(words), Addr(k)) == words[k]
  {
    hide ByteOf;
    var a := Addr(k);
    assert ImageByte(words, a) == ByteOf(words[k], 0) && ImageByte(words, a + 1) == ByteOf(words[k], 1);
    assert ImageByte(words, a + 2) == ByteOf(words[k], 2) && ImageByte(words, a + 3) == ByteOf(words[k], 3);
    WordBytes(words[k]);
  }

  lemma WordBytes(w: nat)
    requires w < TWO32
    ensures ByteOf(w, 0) + 0x100 * ByteOf(w, 1) + 0x1_0000 * ByteOf(w, 2) + 0x100_0000 * ByteOf(w, 3) == w
  {
    assert w / 0x1_0000 == w / 0x100 / 0x100 && w / 0x100_0000 == w / 0x1_0000 / 0x100;
  }

  // Every use of the random source, with only the range of its result known.

  method Range(lo: int, hi: int) returns (v: int)
    requires lo < hi
    ensures lo <= v < hi
  {
    v :| lo <= v < hi;
  }

  method Choice(options: seq<nat>) returns (v: nat)
    requires options != []
    ensures v in options
  {
    assert options[0] in options;
    v :| v in options;
  }

  lemma TrapWord(w: nat)
    requires w == 0x0000_0073 || w == 0x0010_0073 || w == 0x0000_000b
    ensures Legal([w]) && BlockRuns([w], 8)
  {
    assert Traps(Decode(w));
    hide Decode, BlockRuns;
    TrapBlock(w);
  }

  method SystemBlock(rd: nat, a: nat) returns (block: seq<nat>, count: nat)
    requires 4 <= rd < 32 && 4 <= a < 32
    ensures BlockRuns(block, count) && Legal(block) && 1 <= count && |block| == 1
  {
    hide Decode, BlockRuns, EncCsr;
    var trap := Range(0, 3);
    if trap == 0 {
      var w := Choice([0x0000_0073, 0x0010_0073, 0x0000_000b]);
      block, count := [w], 8;
      TrapWord(w);
    } else {
      var addr := Choice([MSCRATCH, MTVEC, MEPC, MCAUSE, MTVAL]);
      var op := Choice([1, 2, 3, 5, 6, 7]);
      var source: nat := a;
      if op >= 4 { source := Range(0, 32); }
      if addr == MTVEC {
        op := Choice([6, 7]);
        source := Choice([0, 1]);
      }
      var w := EncCsr(addr, rd, op, source);
      block, count := [w], 1;
      DecodeCsr(addr, rd, op, source);
      CsrBlock(w, rd, addr, op, source);
    }
  }

  lemma DecodeOpImmWord(rd: nat, f3: nat, a: nat, imm: int)
    requires rd < 32 && a < 32 && f3 < 8
    requires if f3 == 1 then 0 <= imm < 0x40 else if f3 == 5 then 0 <= imm < 0x40 || 0x400 <= imm < 0x440
             else -0x800 <= imm < 0x800
    ensures EncI(0x13, rd, f3, a, imm) < TWO32
    ensures Decode(EncI(0x13, rd, f3, a, imm)) == OpImm(rd, f3, a, imm)
  {
    FieldsI(0x13, rd, f3, a, imm);
    hide EncI, Rd, Rs1, Funct3, Imm12, ImmI;
  }

  lemma DecodeAddiw(rd: nat, a: nat, imm: int)
    requires rd < 32 && a < 32 && -0x800 <= imm < 0x800
    ensures EncI(0x1b, rd, 0, a, imm) < TWO32
    ensures Decode(EncI(0x1b, rd, 0, a, imm)) == OpImmW(rd, 0, a, imm)
  {
    FieldsI(0x1b, rd, 0, a, imm);
    hide EncI, Rd, Rs1, Funct3, Imm12, ImmI;
  }

  method ComputeWord(rd: nat, a: nat, b: nat) returns (w: nat, ghost ins: Instr)
    requires 4 <= rd < 32 && 4 <= a < 32 && 4 <= b < 32
    ensures w < TWO32 && Decode(w) == ins && Computes(ins) && ins.rd == rd
  {
    hide Decode, EncI, EncR;
    var mode := Range(0, 5);
    if mode == 0 {
      var f3 := Choice([0, 2, 3, 4, 6, 7]);
      var imm := Range(-2048, 2048);
      w, ins := EncI(0x13, rd, f3, a, imm), OpImm(rd, f3, a, imm);
      DecodeOpImmWord(rd, f3, a, imm);
    } else if mode == 1 {
      var f3 := Choice([1, 5]);
      var arith := Range(0, 2);
      var shamt := Range(0, 64);
      var imm := shamt + if f3 == 5 && arith == 1 then 0x400 else 0;
      w, ins := EncI(0x13, rd, f3, a, imm), OpImm(rd, f3, a, imm);
      DecodeOpImmWord(rd, f3, a, imm);
    } else if mode == 2 {
      var f3 := Range(0, 8);
      var alt := Range(0, 2);
      var f7 := if (f3 == 0 || f3 == 5) && alt == 1 then 0x20 else 0;
      w, ins := EncR(rd, f3, a, b, f7, 0x33), Op(rd, f3, a, b, f7 == 0x20);
      DecodeR(rd, f3, a, b, f7, 0x33);
    } else if mode == 3 {
      var f3 := Choice([0, 1, 5]);
      var alt := Range(0, 2);
      var f7 := if (f3 == 0 || f3 == 5) && alt == 1 then 0x20 else 0;
      w, ins := EncR(rd, f3, a, b, f7, 0x3b), OpW(rd, f3, a, b, f7 == 0x20);
      DecodeR(rd, f3, a, b, f7, 0x3b);
    } else {
      var imm := Range(-2048, 2048);
      w, ins := EncI(0x1b, rd, 0, a, imm), OpImmW(rd, 0, a, imm);
      DecodeAddiw(rd, a, imm);
    }
  }

  method AluBlock(rd: nat, a: nat, b: nat) returns (block: seq<nat>, count: nat)
    requires 4 <= rd < 32 && 4 <= a < 32 && 4 <= b < 32
    ensures BlockRuns(block, count) && Legal(block) && count == 1 && |block| == 1
  {
    hide Decode, BlockRuns;
    var w, ins := ComputeWord(rd, a, b);
    block, count := [w], 1;
    ComputeBlock(w, ins);
  }

  method BranchBlock(rd: nat, a: nat) returns (block: seq<nat>, count: nat)
    requires 4 <= rd < 32 && 4 <= a < 32
    ensures BlockRuns(block, count) && Legal(block) && 1 <= count && |block| <= count + 1
  {
    hide Decode, BlockRuns, EncI, EncBranch;
    var loop := Range(0, 4);
    if loop == 0 {
      var n := Range(1, 9);
      block := [EncI(0x13, 2, 0, 0, n), EncI(0x13, rd, 0, rd, 1), EncI(0x13, 2, 0, 2, -1), EncBranch(1, 2, 0, -8)];
      count := 1 + n * 3;
      DecodeAddi(2, 0, n);
      DecodeAddi(rd, rd, 1);
      DecodeAddi(2, 2, -1);
      DecodeBranch(1, 2, 0, -8);
      LoopBlock(block[0], block[1], block[2], block[3], rd, n);
    } else {
      var f3 := Choice([0, 1, 4, 5, 6, 7]);
      var taken := f3 == 0 || f3 == 5 || f3 == 7;
      block := [EncBranch(f3, 0, 0, 8), EncI(0x13, rd, 0, a, 1)];
      count := if taken then 1 else 2;
      DecodeBranch(f3, 0, 0, 8);
      DecodeAddi(rd, a, 1);
      SkipBranchBlock(block[0], block[1], f3, OpImm(rd, 0, a, 1));
    }
  }

  method JalBlock(rd: nat, a: nat) returns (block: seq<nat>, count: nat)
    requires 4 <= rd < 32 && 4 <= a < 32
    ensures BlockRuns(block, count) && Legal(block) && count == 1 && |block| == 2
  {
    hide Decode, BlockRuns, EncI, EncJal;
    var link := Choice([0, rd]);
    block, count := [EncJal(link, 8), EncI(0x13, rd, 0, a, 17)], 1;
    DecodeJal(link, 8);
    DecodeAddi(rd, a, 17);
    JumpBlock(block[0], block[1], link);
  }

  lemma DecodeLoad(rd: nat, f3: nat, off: nat)
    requires rd < 32 && f3 < 7 && off < 0x800
    ensures EncI(0x03, rd, f3, 1, off) < TWO32
    ensures Decode(EncI(0x03, rd, f3, 1, off)) == Load(rd, f3, 1, off)
  {
    FieldsI(0x03, rd, f3, 1, off);
    hide EncI, Rd, Rs1, Funct3, Imm12, ImmI;
  }

  method MemoryBlock(load: bool, rd: nat, b: nat) returns (block: seq<nat>, count: nat, rd': nat)
    requires 4 <= rd < 32 && 4 <= b < 32
    ensures BlockRuns(block, count) && Legal(block) && count == 1 && |block| == 1 && (rd' == rd || rd' == 0)
  {
    hide Decode, BlockRuns, EncI, EncStore;
    rd' := rd;
    var f3 := Range(0, if load then 7 else 4);
    var size := Size(f3);
    var slot := Range(0, 2048 / size);
    var off := slot * size;
    SlotFits(slot, size);
    if load {
      var discard := Range(0, 16);
      if discard == 0 { rd' := 0; }
      block := [EncI(0x03, rd', f3, 1, off)];
      DecodeLoad(rd', f3, off);
      LoadBlock(block[0], rd', f3, off);
    } else {
      block := [EncStore(f3, 1, b, off)];
      DecodeStore(f3, 1, b, off);
      StoreBlock(block[0], f3, b, off);
    }
    count := 1;
  }

  lemma SlotFits(slot: nat, size: nat)
    requires size == 1 || size == 2 || size == 4 || size == 8
    requires slot < 2048 / size
    ensures slot * size % size == 0 && slot * size + size <= 2048
  {
  }

  datatype Result = Generated(words: seq<nat>, dynamic: nat) | TargetTooSmall | OverlapsHandler

  /** One template of the mixture, or the filler when the template would overshoot the target. */
  method PickBlock(room: nat) returns (block: seq<nat>, count: nat)
    requires room >= 1
    ensures BlockRuns(block, count) && Legal(block) && 1 <= count <= room && |block| <= 2 * count
  {
    hide Decode, BlockRuns, EncI, Legal;
    var kind := Range(0, 6);
    var rd := Range(4, 32);
    var a := Range(4, 32);
    var b := Range(4, 32);
    var dest := rd;
    if kind == 0 {
      block, count := SystemBlock(rd, a);
    } else if kind == 1 {
      block, count := AluBlock(rd, a, b);
    } else if kind == 2 {
      block, count := BranchBlock(rd, a);
    } else if kind == 3 {
      block, count := JalBlock(rd, a);
    } else {
      block, count, dest := MemoryBlock(kind == 4, rd, b);
    }
    if count > room {
      block, count := [EncI(0x13, dest, 0, a, 0)], 1;
      FillerRuns(dest, a);
    }
  }

  lemma FillerRuns(rd: nat, a: nat)
    requires a < 32 && rd < 32 && rd != 1 && rd != 3
    ensures BlockRuns([EncI(0x13, rd, 0, a, 0)], 1) && Legal([EncI(0x13, rd, 0, a, 0)])
  {
    DecodeAddi(rd, a, 0);
    hide Decode, BlockRuns, EncI;
    ComputeBlock(EncI(0x13, rd, 0, a, 0), OpImm(rd, 0, a, 0));
  }

  lemma LegalJoin(a: seq<nat>, b: seq<nat>)
    requires Legal(a) && Legal(b)
    ensures Legal(a + b)
  {
    hide Decode;
  }

  /** Registers x4 to x31 get arbitrary starting values, one event each. */
  method SeedRegisters() returns (block: seq<nat>)
    ensures BlockRuns(block, 28) && Legal(block) && |block| == 28
  {
    hide Decode, BlockRuns, EncI, Legal;
    block := [];
    EmptyBlockRuns();
    assert Legal([]) by { EmptyLegal(); }
    for rd := 4 to 32
      invariant |block| == rd - 4 && BlockRuns(block, rd - 4) && Legal(block)
    {
      var imm := Range(-2048, 2048);
      var w := EncI(0x13, rd, 0, 0, imm);
      SeedRuns(rd, imm);
      BlocksRun(block, rd - 4, [w], 1);
      LegalJoin(block, [w]);
      block := block + [w];
    }
  }

  lemma EmptyLegal()
    ensures Legal([])
  {
  }

  lemma SeedRuns(rd: nat, imm: int)
    requires 4 <= rd < 32 && -2048 <= imm < 2048
    ensures BlockRuns([EncI(0x13, rd, 0, 0, imm)], 1) && Legal([EncI(0x13, rd, 0, 0, imm)])
  {
    DecodeAddi(rd, 0, imm);
    hide Decode, BlockRuns, EncI;
    ComputeBlock(EncI(0x13, rd, 0, 0, imm), OpImm(rd, 0, 0, imm));
  }

  /** The random part of the program: exactly as many events as the target leaves for it. */
  method GenerateBody(target: nat) returns (body: seq<nat>, dynamic: nat)
    requires target >= 2000
    ensures dynamic == target - 2 && BlockRuns(body, dynamic - 6) && Legal(body)
    ensures |body| <= 28 + 2 * (dynamic - 34)
  {
    hide Decode, BlockRuns, Legal;
    body := SeedRegisters();
    dynamic := 34;
    while dynamic < target - 2
      invariant 34 <= dynamic <= target - 2
      invariant BlockRuns(body, dynamic - 6) && Legal(body) && |body| <= 28 + 2 * (dynamic - 34)
    {
      var block, count := PickBlock(target - 2 - dynamic);
      BlocksRun(body, dynamic - 6, block, count);
      LegalJoin(body, block);
      body, dynamic := body + block, dynamic + count;
    }
  }

  /** For every choice the random source can make: the program reports success to the host at exactly
      event number `target`, and its code is legal. It exists whenever the target is at most 4113. */
  method Generate(target: nat) returns (r: Result)
    ensures target < 2000 <==> r.TargetTooSmall?
    ensures r.Generated? ==> Exact(r.words, r.dynamic) && r.dynamic == target
    ensures r.Generated? ==> Legal(r.words) && WithHandler(r.words)
    ensures 2000 <= target <= 4113 ==> r.Generated?
  {
    if target < 2000 { return TargetTooSmall; }
    hide Decode, BlockRuns, Legal, Exact, HandlerCode, Prologue, Epilogue;
    var body, dynamic := GenerateBody(target);
    FixedWords();
    var words := Prologue() + body + Epilogue();
    LegalJoin(Prologue(), body);
    LegalJoin(Prologue() + body, Epilogue());
    if |words| > CODE_WORDS { return OverlapsHandler; }
    var padding := seq(CODE_WORDS - |words|, _ => NOP);
    PaddingLegal(padding);
    LegalJoin(words, padding);
    LegalJoin(words + padding, HandlerCode());
    r := Generated(words + padding + HandlerCode(), dynamic + 2);
    AssembledReports(body, dynamic - 6, padding);
  }

  lemma AssembledReports(body: seq<nat>, n: nat, padding: seq<nat>)
    requires BlockRuns(body, n) && 9 + |body| + |padding| == CODE_WORDS
    ensures var all := Prologue() + body + Epilogue() + padding + HandlerCode(); WithHandler(all) && Exact(all, n + 8)
  {
    hide Decode, BlockRuns, Exact, HandlerCode, Prologue, Epilogue;
    FixedWords();
    var e := 6 + |body|;
    var code := Prologue() + body + Epilogue() + padding;
    var all := code + HandlerCode();
    assert all[CODE_WORDS..] == HandlerCode();
    assert all[..6] == Prologue();
    assert all[6..e] == body;
    assert all[e..e + 3] == Epilogue();
    ProgramReports(body, n, all);
  }

  lemma FixedWords()
    ensures |Prologue()| == 6 && |Epilogue()| == 3 && |HandlerCode()| == HANDLER_WORDS
    ensures Legal(Prologue()) && Legal(Epilogue()) && Legal(HandlerCode())
  {
    hide Decode, EncI, EncStore, EncJal, EncCsr;
    PrologueDecodes();
    EpilogueDecodes();
    DecodeCsr(MSCRATCH, 31, 1, 31);
    DecodeCsr(MCAUSE, 31, 2, 0);
    DecodeCsr(MEPC, 31, 2, 0);
    DecodeAddi(31, 31, 4);
    DecodeCsr(MEPC, 0, 1, 31);
    MretLegal();
  }

  lemma MretLegal()
    ensures Decode(0x3020_0073) == Mret && Decode(NOP) == OpImm(0, 0, 0, 0)
  {
  }

  lemma PaddingLegal(padding: seq<nat>)
    requires forall k :: 0 <= k < |padding| ==> padding[k] == NOP
    ensures Legal(padding)
  {
    hide Decode;
    MretLegal();
  }
}
