/** The fetch stage that decodes early and corrects the branch predictor: its decoder (RISC-V Unprivileged
    ISA 20191213, sections 2.3 and 2.5) and its correction of one fetch block. */
module IfuF1 {
  import Rv64
  import Encoders
  import Rings
  import StableSort
  import opened Wrappers

  const TWO64 := Rv64.TWO64

  datatype Cfi = NoCfi | Br | Jal | Jalr
  datatype Ras = RasNone | RasPush | RasPop | RasPopPush
  datatype Decoded = Decoded(cfi: Cfi, ras: Ras, direct: Option<nat>)

  // ------------------------------------------------------------- words

  function JalWord(rd: nat, imm: int): nat {
    var m := imm % 0x20_0000;
    m / 0x10_0000 % 2 * 0x8000_0000 + m / 2 % 0x400 * 0x20_0000 + m / 0x800 % 2 * 0x10_0000
    + m / 0x1000 % 0x100 * 0x1000 + rd * 0x80 + 0x6f
  }

  function JalrWord(rd: nat, rs1: nat, imm: int): nat {
    imm % 0x1000 * 0x10_0000 + rs1 * 0x8000 + rd * 0x80 + 0x67
  }

  function BranchWord(rs1: nat, rs2: nat, imm: int, f3: nat): nat {
    var m := imm % 0x2000;
    m / 0x1000 % 2 * 0x8000_0000 + m / 0x20 % 0x40 * 0x200_0000 + rs2 * 0x10_0000 + rs1 * 0x8000
    + f3 * 0x1000 + m / 2 % 0x10 * 0x100 + m / 0x800 % 2 * 0x80 + 0x63
  }

  // Masking an offset to its field width first changes none of the pieces taken from it.
  lemma Masked(n: int, a: int, b: int, c: int, mask: int)
    requires a > 0 && b > 0 && c > 0 && mask == a * b * c
    ensures mask > 0 && n % mask / a % b == n / a % b
  {
    Positive(a, b);
    Positive(a * b, c);
    var q, e := n / mask, n % mask / a;
    var u, v := q * c * b + e, q * c + e / b;
    assert q * mask == q * c * b * a;
    assert u * a == q * c * b * a + e * a;
    Rings.ModOf(n, u, n % mask % a, a);
    assert v * b == q * c * b + e / b * b;
    Rings.ModOf(u, v, e % b, b);
  }

  lemma Positive(a: int, b: int) requires a > 0 && b > 0 ensures a * b > 0 {}

  /** The two encoders of jumps in the repository make the same words. */
  lemma SameJump(rd: nat, imm: int)
    ensures JalWord(rd, imm) == Encoders.EncJal(rd, imm)
  {
    Masked(imm, 0x10_0000, 2, 1, 0x20_0000);
    Masked(imm, 0x1000, 0x100, 2, 0x20_0000);
    Masked(imm, 0x800, 2, 0x200, 0x20_0000);
    Masked(imm, 2, 0x400, 0x400, 0x20_0000);
  }

  /** So do the two encoders of branches. */
  lemma SameBranch(rs1: nat, rs2: nat, imm: int, f3: nat)
    ensures BranchWord(rs1, rs2, imm, f3) == Encoders.EncBranch(f3, rs1, rs2, imm)
  {
    Masked(imm, 0x1000, 2, 1, 0x2000);
    Masked(imm, 0x800, 2, 2, 0x2000);
    Masked(imm, 0x20, 0x40, 4, 0x2000);
    Masked(imm, 2, 0x10, 0x100, 0x2000);
  }

  predicate Link(r: nat) { r == 1 || r == 5 }

  function Target(pc: nat, imm: int): nat { (pc + imm) % TWO64 }

  /** Instruction class, return-stack action by the x1/x5 rule, and direct target. */
  function Decode(word: nat, pc: nat): Decoded {
    var op, rd, rs1, f3 := Rv64.Opcode(word), Rv64.Rd(word), Rv64.Rs1(word), Rv64.Funct3(word);
    if op == 0x63 && f3 != 2 && f3 != 3 then Decoded(Br, RasNone, Some(Target(pc, Rv64.ImmB(word))))
    else if op == 0x6f then Decoded(Jal, if Link(rd) then RasPush else RasNone, Some(Target(pc, Rv64.ImmJ(word))))
    else if op == 0x67 && f3 == 0 then
      Decoded(Jalr,
              if Link(rs1) then (if Link(rd) then (if rd == rs1 then RasPush else RasPopPush) else RasPop)
              else if Link(rd) then RasPush else RasNone,
              None)
    else Decoded(NoCfi, RasNone, None)
  }

  /** Decoding a jump gives back its class, its link action and its target, for every even offset. */
  lemma DecodeJump(rd: nat, imm: int, pc: nat)
    requires rd < 0x20 && -0x10_0000 <= imm < 0x10_0000 && imm % 2 == 0
    ensures Decode(JalWord(rd, imm), pc)
            == Decoded(Jal, if rd == 1 || rd == 5 then RasPush else RasNone, Some((pc + imm) % TWO64))
  {
    SameJump(rd, imm);
    Encoders.DecodeJal(rd, imm);
    JumpFields(JalWord(rd, imm), rd, imm);
    hide JalWord, Rv64.Opcode, Rv64.Rd, Rv64.ImmJ;
  }

  /** The full decoder reads a jump only from its own opcode and fields. */
  lemma JumpFields(w: nat, rd: nat, imm: int)
    requires Rv64.Decode(w) == Rv64.Jal(rd, imm)
    ensures Rv64.Opcode(w) == 0x6f && Rv64.Rd(w) == rd && Rv64.ImmJ(w) == imm
  {
    hide Rv64.Opcode, Rv64.Rd, Rv64.ImmJ, Rv64.Imm12, Rv64.Funct3, Rv64.Funct7, Rv64.Rs1, Rv64.Rs2, Rv64.ImmI;
    hide Rv64.ImmS, Rv64.ImmB;
  }

  lemma DecodeBranch(rs1: nat, rs2: nat, imm: int, f3: nat, pc: nat)
    requires rs1 < 0x20 && rs2 < 0x20 && f3 < 8 && f3 != 2 && f3 != 3
    requires -0x1000 <= imm < 0x1000 && imm % 2 == 0
    ensures Decode(BranchWord(rs1, rs2, imm, f3), pc) == Decoded(Br, RasNone, Some((pc + imm) % TWO64))
  {
    SameBranch(rs1, rs2, imm, f3);
    Encoders.DecodeBranch(f3, rs1, rs2, imm);
    BranchFields(BranchWord(rs1, rs2, imm, f3), f3, rs1, rs2, imm);
    hide BranchWord, Rv64.Opcode, Rv64.Funct3, Rv64.ImmB;
  }

  lemma BranchFields(w: nat, f3: nat, rs1: nat, rs2: nat, imm: int)
    requires Rv64.Decode(w) == Rv64.Branch(f3, rs1, rs2, imm)
    ensures Rv64.Opcode(w) == 0x63 && Rv64.Funct3(w) == f3 && Rv64.ImmB(w) == imm && f3 != 2 && f3 != 3
  {
    hide Rv64.Opcode, Rv64.Rd, Rv64.ImmJ, Rv64.Imm12, Rv64.Funct3, Rv64.Funct7, Rv64.Rs1, Rv64.Rs2, Rv64.ImmI;
    hide Rv64.ImmS, Rv64.ImmB;
  }

  lemma SameIndirect(rd: nat, rs1: nat, imm: int)
    ensures JalrWord(rd, rs1, imm) == Encoders.EncI(0x67, rd, 0, rs1, imm)
  {
  }

  /** An indirect jump has no direct target, and its stack action depends on both registers. */
  lemma DecodeIndirect(rd: nat, rs1: nat, imm: int, pc: nat)
    requires rd < 0x20 && rs1 < 0x20
    ensures var d := Decode(JalrWord(rd, rs1, imm), pc);
            d.cfi == Jalr && d.direct == None
            && (d.ras == RasPop || d.ras == RasPopPush <==> (rs1 == 1 || rs1 == 5) && rd != rs1)
            && (d.ras == RasPush || d.ras == RasPopPush <==> rd == 1 || rd == 5)
  {
    hide JalrWord, Encoders.EncI, Rv64.Opcode, Rv64.Rd, Rv64.Rs1, Rv64.Funct3, Rv64.ImmI, Target;
    Encoders.FieldsI(0x67, rd, 0, rs1, imm);
    SameIndirect(rd, rs1, imm);
  }

  /** Nothing else is a control-flow instruction: the class depends on the low seven bits, and for branches and indirect
      jumps on bits 12 to 14. */
  lemma ClassMeans(word: nat, pc: nat)
    ensures var cfi, f3 := Decode(word, pc).cfi, word / 0x1000 % 8;
            && (cfi == Br <==> word % 0x80 == 0x63 && f3 != 2 && f3 != 3)
            && (cfi == Jal <==> word % 0x80 == 0x6f)
            && (cfi == Jalr <==> word % 0x80 == 0x67 && f3 == 0)
  {
    hide Target, Rv64.ImmB, Rv64.ImmJ, Rv64.Rd, Rv64.Rs1;
  }

  // ------------------------------------------------------- items and predictions

  datatype Item = Item(slot: int, pc: nat, word: nat, ftqId: nat, exc: bool, cause: nat, tval: nat, len: nat,
                       edge: bool)

  datatype Pred = Pred(
    cfiValid: bool, cfiSlot: int, cfiType: Cfi, ras: Ras, cfiTarget: nat, nextPc: nat, rasCount: nat, rasTop: nat,
    rvc: bool, edge: bool, base: nat, ftqId: nat)

  datatype Inputs = Inputs(rst: bool, items: seq<Item>, pred: Pred, ready: bool, kill: bool, last: bool, edgePend: bool)

  datatype Entry = Entry(
    pc: nat, word: nat, ftqId: nat, slot: int, exc: bool, cause: nat, tval: nat, taken: bool, nextPc: nat, last: bool)

  datatype Request = Request(
    ftqId: nat, slot: int, target: nat, histInject: bool, histBranch: nat, histTarget: nat, rasFix: Ras, pushAddr: nat)

  datatype Fix = Fix(taken: bool, target: nat, ras: Ras, inject: bool)

  function Start(item: Item): int { if item.edge then -1 else item.slot }
  function End(item: Item): int { Start(item) + if item.len == 4 then 1 else 0 }
  function Exit(p: Pred): int { if p.edge then -1 else p.cfiSlot }
  function Next(item: Item): nat { (item.pc + item.len) % TWO64 }
  predicate IsExit(p: Pred, item: Item) { p.cfiValid && Start(item) == Exit(p) }
  predicate Covers(p: Pred, item: Item) { p.cfiValid && End(item) >= Exit(p) }
  predicate Earlier(p: Pred, item: Item) { !p.cfiValid || Start(item) < Exit(p) }

  /** Where the instruction surely goes: a direct jump, or a return with a stack to return from. */
  function Actual(p: Pred, item: Item): Option<nat> {
    var d := Decode(item.word, item.pc);
    if d.cfi == Jal then d.direct
    else if d.cfi == Jalr && (d.ras == RasPop || d.ras == RasPopPush) && p.rasCount != 0 then Some(p.rasTop)
    else None
  }

  predicate Pushes(r: Ras) { r == RasPush || r == RasPopPush }

  predicate RasWrong(p: Pred, item: Item) {
    var d := Decode(item.word, item.pc);
    p.ras != d.ras || (Pushes(d.ras) && p.rvc != (item.len == 2))
  }

  /** The correction of one item, if it needs one. */
  function Correction(p: Pred, item: Item): Option<Fix> {
    if item.exc then None
    else
      var d := Decode(item.word, item.pc);
      var actual := Actual(p, item);
      if Earlier(p, item) && actual.Some? then Some(Fix(true, actual.value, d.ras, false))
      else if Covers(p, item) && (!IsExit(p, item) || d.cfi == NoCfi) then Some(Fix(false, Next(item), RasNone, false))
      else if IsExit(p, item) && d.cfi != p.cfiType then
        Some(if actual.Some? then Fix(true, actual.value, d.ras, false) else Fix(false, Next(item), RasNone, false))
      else if IsExit(p, item) && d.direct.Some?
        && (p.cfiTarget != d.direct.value || (d.cfi == Jal && RasWrong(p, item))) then
        Some(Fix(true, d.direct.value, d.ras, d.cfi == Br))
      else if IsExit(p, item) && d.cfi == Jalr && RasWrong(p, item) then
        Some(Fix(true, if actual.Some? then actual.value else p.nextPc, d.ras, false))
      else None
  }

  function Delivered(p: Pred, item: Item): Entry {
    var fix := Correction(p, item);
    Entry(item.pc, item.word, item.ftqId, item.slot, item.exc, item.cause, item.tval,
          if fix.Some? then fix.value.taken else IsExit(p, item),
          if fix.Some? then fix.value.target else if IsExit(p, item) then p.nextPc else Next(item),
          false)
  }

  function RequestFor(item: Item, fix: Fix): Request {
    Request(item.ftqId, item.slot, fix.target, fix.inject, item.pc, fix.target, fix.ras, Next(item))
  }

  predicate Stops(p: Pred, item: Item) { Correction(p, item).Some? || item.exc || Covers(p, item) }

  datatype Walked = Walked(entries: seq<Entry>, request: Option<Request>)

  /** The items of a block in slot order, up to the width, the exit, a fault or a correction. */
  function Walk(p: Pred, items: seq<Item>, width: nat): Walked {
    if items == [] || width == 0 then Walked([], None)
    else
      var item := items[0];
      if Stops(p, item) then
        var fix := Correction(p, item);
        Walked([Delivered(p, item)], if fix.Some? then Some(RequestFor(item, fix.value)) else None)
      else
        var rest := Walk(p, items[1..], width - 1);
        Walked([Delivered(p, item)] + rest.entries, rest.request)
  }

  function SlotOf(item: Item): int { item.slot }

  /** The items of the block by slot. */
  function InOrder(items: seq<Item>): seq<Item> { StableSort.Sorted(items, SlotOf) }

  /** A taken branch in the last slot whose second half is still to come sends fetch past the block. */
  predicate EdgeRequest(i: Inputs, w: Walked) {
    w.request.None? && i.last && i.edgePend && i.pred.cfiValid && !i.pred.edge && i.pred.cfiSlot == 7
    && !(w.entries != [] && w.entries[|w.entries| - 1].exc)
  }

  function MarkLast(entries: seq<Entry>, mark: bool): seq<Entry> {
    if entries != [] && mark then entries[|entries| - 1 := entries[|entries| - 1].(last := true)] else entries
  }

  datatype Outcome = Outcome(ready: bool, entries: seq<Entry>, request: Option<Request>)

  function Evaluate(i: Inputs, width: nat): Outcome {
    var ready := i.ready && !(i.rst || i.kill);
    if i.rst || i.kill then Outcome(ready, [], None)
    else
      var w := Walk(i.pred, InOrder(i.items), width);
      var past := Request(i.pred.ftqId, 7, i.pred.base + 16, false, 0, 0, RasNone, 0);
      var request := if EdgeRequest(i, w) then Some(past) else w.request;
      Outcome(ready, MarkLast(w.entries, i.last || request.Some?), request)
  }

  // ------------------------------------------------------------- soundness

  /** Instructions of two or four bytes, one after the other. */
  predicate Contiguous(items: seq<Item>) {
    && (forall k :: 0 <= k < |items| ==> items[k].len == 2 || items[k].len == 4)
    && (forall k :: 0 <= k < |items| - 1 ==>
        Start(items[k + 1]) == End(items[k]) + 1 && items[k + 1].pc == Next(items[k]))
  }

  /** Where an instruction may go next. An indirect jump may go anywhere. */
  predicate Successor(item: Item, next: nat) {
    var d := Decode(item.word, item.pc);
    match d.cfi
    case NoCfi => next == Next(item)
    case Jal => Some(next) == d.direct
    case Br => Some(next) == d.direct || next == Next(item)
    case Jalr => true
  }

  lemma DirectTargets(word: nat, pc: nat)
    ensures var d := Decode(word, pc);
            && (d.direct.Some? <==> d.cfi == Jal || d.cfi == Br) && (d.cfi == Br ==> d.ras == RasNone)
            && (d.cfi == NoCfi ==> d.ras == RasNone)
  {
    hide Target, Rv64.Opcode, Rv64.Rd, Rv64.Rs1, Rv64.Funct3, Rv64.ImmB, Rv64.ImmJ;
  }

  /** One delivered item goes where its instruction may go, and is marked taken exactly when it leaves the
      block by a control-flow instruction: a taken direct one goes to its target, an untaken one falls through. */
  lemma DeliveredSound(p: Pred, item: Item)
    requires !item.exc && (p.cfiValid ==> Exit(p) >= Start(item) && p.nextPc == p.cfiTarget)
    ensures Successor(item, Delivered(p, item).nextPc)
    ensures var d, e := Decode(item.word, item.pc), Delivered(p, item);
            if e.taken then d.cfi != NoCfi && (d.direct.Some? ==> e.nextPc == d.direct.value)
            else e.nextPc == Next(item)
    ensures !Stops(p, item) ==> Delivered(p, item).nextPc == Next(item)
  {
    DirectTargets(item.word, item.pc);
    hide Decode, Next;
  }

  /** An instruction that did not fault is left alone exactly when the prediction is right about it: at the exit
      it is of the predicted class, with the predicted target and stack action; anywhere else it neither covers
      the exit nor surely leaves the block. */
  lemma CorrectedExactly(p: Pred, item: Item)
    requires !item.exc
    ensures var d := Decode(item.word, item.pc);
            Correction(p, item).None? <==>
            if IsExit(p, item) then
              && d.cfi == p.cfiType && d.cfi != NoCfi && (d.direct.Some? ==> p.cfiTarget == d.direct.value)
              && (d.cfi == Jal || d.cfi == Jalr ==>
                    p.ras == d.ras && (d.ras == RasPush || d.ras == RasPopPush ==> (p.rvc <==> item.len == 2)))
            else !Covers(p, item) && Actual(p, item).None?
  {
    DirectTargets(item.word, item.pc);
    hide Decode, Next;
  }

  /** What a correction says: a taken one carries the stack action of the instruction and teaches the branch
      history exactly for a branch; any other goes to the next instruction with no stack action. */
  lemma CorrectionMeans(p: Pred, item: Item)
    requires Correction(p, item).Some?
    ensures var d, fix := Decode(item.word, item.pc), Correction(p, item).value;
            && !item.exc && fix.ras == (if fix.taken then d.ras else RasNone)
            && (fix.inject <==> fix.taken && d.cfi == Br)
            && if fix.taken then d.cfi != NoCfi && (d.direct.Some? ==> fix.target == d.direct.value)
                                 && (d.direct.None? ==> fix.target == p.rasTop || fix.target == p.nextPc)
               else fix.target == Next(item)
  {
    DirectTargets(item.word, item.pc);
    hide Decode, Next, RasWrong;
  }

  /** The delivered entries are a path: each leads to the next, every one that did not fault goes where
      its instruction may go, and a correction asks for the address after the last entry. */
  lemma {:induction false} PathSound(p: Pred, items: seq<Item>, width: nat)
    requires Contiguous(items) && (p.cfiValid ==> p.nextPc == p.cfiTarget)
    requires p.cfiValid && items != [] ==> Exit(p) >= Start(items[0])
    ensures var es := Walk(p, items, width).entries;
            && |es| <= |items| && |es| <= width
            && (forall k :: 0 <= k < |es| ==>
                es[k].pc == items[k].pc && es[k].word == items[k].word && es[k].exc == items[k].exc)
            && (forall k :: 0 <= k < |es| - 1 ==> es[k].nextPc == es[k + 1].pc)
            && (forall k :: 0 <= k < |es| && !es[k].exc ==> Successor(items[k], es[k].nextPc))
    ensures var w := Walk(p, items, width);
            w.request.Some? ==> w.entries != [] && w.request.value.target == w.entries[|w.entries| - 1].nextPc
                                && w.request.value.slot == w.entries[|w.entries| - 1].slot
                                && w.request.value.ftqId == w.entries[|w.entries| - 1].ftqId
    decreases |items|
  {
    hide Correction, Next, Successor, Decode;
    if items != [] && width > 0 {
      var item := items[0];
      if !item.exc { DeliveredSound(p, item); }
      if !Stops(p, item) {
        assert Contiguous(items[1..]);
        PathSound(p, items[1..], width - 1);
      }
    }
  }

  /** What a correction asks for beside its address: it names its branch and where it went for the histories, the
      address after it for the return stack, and what the stack must undo or do. Only a taken branch is put into the
      branch history, and only a taken correction acts on the stack. */
  lemma {:induction false} RequestExact(p: Pred, items: seq<Item>, width: nat)
    requires Walk(p, items, width).request.Some?
    ensures var w := Walk(p, items, width);
            && 0 < |w.entries| <= |items|
            && var n, r := |w.entries| - 1, w.request.value;
               var item, e, d := items[n], w.entries[n], Decode(items[n].word, items[n].pc);
               && r.ftqId == item.ftqId && r.slot == item.slot && r.target == e.nextPc
               && r.histBranch == item.pc && r.histTarget == e.nextPc && r.pushAddr == (item.pc + item.len) % TWO64
               && (r.histInject <==> e.taken && d.cfi == Br) && r.rasFix == (if e.taken then d.ras else RasNone)
    decreases |items|
  {
    if Stops(p, items[0]) {
      CorrectionMeans(p, items[0]);
    } else {
      RequestExact(p, items[1..], width - 1);
    }
    hide Correction, Decode, Stops;
  }

  /** Nothing is left out and nothing is taken too far: the items before the last delivered one neither stop
      the block nor need a correction, and delivery ends early only at one that does. */
  lemma {:induction false} WalkStops(p: Pred, items: seq<Item>, width: nat)
    ensures var w := Walk(p, items, width);
            var n := |w.entries|;
            && n <= |items| && n <= width
            && (forall k :: 0 <= k < n - 1 ==> !Stops(p, items[k]))
            && (n < |items| && n < width ==> n > 0 && Stops(p, items[n - 1]))
            && (w.request.Some? <==> n > 0 && Correction(p, items[n - 1]).Some?)
    decreases |items|
  {
    if items != [] && width > 0 && !Stops(p, items[0]) { WalkStops(p, items[1..], width - 1); }
    hide Correction, Next, Delivered, RequestFor;
  }

  // --------------------------------------------------------------- fixpoint

  /** The prediction with the corrected control-flow instruction in place of its own. */
  function Repaired(p: Pred, item: Item, fix: Fix): Pred {
    var d := Decode(item.word, item.pc);
    p.(cfiValid := true, cfiSlot := item.slot, cfiType := d.cfi, ras := d.ras, rvc := item.len == 2, edge := item.edge,
       cfiTarget := fix.target, nextPc := fix.target)
  }

  /** With the repaired prediction the corrected item is the exit, goes where the correction sent it, and
      needs no correction. */
  lemma RepairedItem(p: Pred, item: Item)
    requires Correction(p, item).Some? && Correction(p, item).value.taken
    ensures var p' := Repaired(p, item, Correction(p, item).value);
            Correction(p', item).None? && Stops(p', item) && Delivered(p', item) == Delivered(p, item)
  {
    DirectTargets(item.word, item.pc);
    hide Decode, Next;
  }

  /** An item before the corrected one is delivered as before. */
  lemma EarlierItem(p: Pred, item: Item, p': Pred)
    requires !Stops(p, item) && p'.cfiValid && End(item) < Exit(p') && p'.rasCount == p.rasCount
             && p'.rasTop == p.rasTop
    ensures !Stops(p', item) && Delivered(p', item) == Delivered(p, item)
  {
    hide Decode, Next;
  }

  lemma {:induction false} StartsGrow(items: seq<Item>, k: nat)
    requires Contiguous(items) && 0 < k < |items|
    ensures End(items[0]) < Start(items[k])
    decreases k
  {
    if k > 1 { StartsGrow(items, k - 1); }
  }

  /** Walking the same items with the prediction repaired at the corrected one delivers the same entries
      and asks for nothing. */
  lemma {:induction false} WalkFixpoint(p: Pred, items: seq<Item>, width: nat)
    requires Contiguous(items)
    requires var w := Walk(p, items, width);
             w.request.Some? && w.entries[|w.entries| - 1].taken
    ensures var w := Walk(p, items, width);
            var n := |w.entries| - 1;
            && 0 <= n < |items| && Correction(p, items[n]).Some? && Correction(p, items[n]).value.taken
            && Walk(Repaired(p, items[n], Correction(p, items[n]).value), items, width) == Walked(w.entries, None)
    decreases |items|
  {
    var item := items[0];
    var w := Walk(p, items, width);
    var n := |w.entries| - 1;
    if Stops(p, item) {
      RepairedItem(p, item);
    } else {
      assert Contiguous(items[1..]);
      WalkFixpoint(p, items[1..], width - 1);
      var p' := Repaired(p, items[n], Correction(p, items[n]).value);
      StartsGrow(items, n);
      EarlierItem(p, item, p');
    }
    hide Correction, Next, Decode;
  }

  // ---------------------------------------------------------- whole blocks

  ghost predicate SameButLast(es: seq<Entry>, es': seq<Entry>) {
    |es| == |es'| && forall k :: 0 <= k < |es| ==> es[k].(last := false) == es'[k].(last := false)
  }

  lemma {:induction false} WalkUnmarked(p: Pred, items: seq<Item>, width: nat)
    ensures forall k :: 0 <= k < |Walk(p, items, width).entries| ==> !Walk(p, items, width).entries[k].last
    decreases |items|
  {
    if items != [] && width > 0 && !Stops(p, items[0]) { WalkUnmarked(p, items[1..], width - 1); }
    hide Correction, Next;
  }

  /** Rewriting the prediction with a taken correction and evaluating the same items again delivers the
      same entries, and asks for a correction again exactly when half an instruction is pending behind a
      corrected one that already fills the last slot. */
  lemma FixpointExact(i: Inputs, width: nat)
    requires !i.rst && !i.kill && Contiguous(InOrder(i.items))
    requires var w := Walk(i.pred, InOrder(i.items), width);
             w.request.Some? && w.entries[|w.entries| - 1].taken
    ensures var w := Walk(i.pred, InOrder(i.items), width);
            var n := |w.entries| - 1;
            && 0 <= n < |InOrder(i.items)| && Correction(i.pred, InOrder(i.items)[n]).Some?
            && var item := InOrder(i.items)[n];
            && var i' := i.(pred := Repaired(i.pred, item, Correction(i.pred, item).value));
            && SameButLast(Evaluate(i', width).entries, Evaluate(i, width).entries)
            && (Evaluate(i', width).request.Some? <==> i.last && i.edgePend && !item.edge && item.slot == 7)
  {
    var items := InOrder(i.items);
    WalkFixpoint(i.pred, items, width);
    CorrectedDidNotFault(i.pred, items, width);
    hide Correction, Next, Decode, Walk, StableSort.Sorted;
  }

  const NO_PREDICTION := Pred(false, 0, NoCfi, RasNone, 0, 0, 0, 0, false, false, 0, 0)
  const LAST_JUMP := Item(7, 14, JalWord(0, 0), 0, false, 0, 0, 4, false)

  function WithPending(p: Pred): Inputs { Inputs(false, [LAST_JUMP], p, true, false, true, true) }

  /** A jump to itself in the last slot, while half an instruction is said to be pending: the corrected
      prediction is itself corrected. The evaluation accepts this input. It does not say whether a fetch block can
      present it, that is, whether an item can start in the last slot when half an instruction is pending behind it;
      nothing here assumes either. */
  lemma FixpointFails()
    ensures Correction(NO_PREDICTION, LAST_JUMP) == Some(Fix(true, 14, RasNone, false))
    ensures Evaluate(WithPending(Repaired(NO_PREDICTION, LAST_JUMP, Fix(true, 14, RasNone, false))), 1).request.Some?
  {
    hide Decode, JalWord, Next;
    DecodeJump(0, 0, 14);
    Rings.ModOf(14, 0, 14, TWO64);
    StableSort.SortedAlready([LAST_JUMP], SlotOf);
    RepairedItem(NO_PREDICTION, LAST_JUMP);
  }

  lemma {:induction false} CorrectedDidNotFault(p: Pred, items: seq<Item>, width: nat)
    requires Walk(p, items, width).request.Some?
    ensures var w := Walk(p, items, width);
            var n := |w.entries| - 1; 0 <= n < |items| && w.entries[n].slot == items[n].slot && !w.entries[n].exc
    decreases |items|
  {
    if !Stops(p, items[0]) { CorrectedDidNotFault(p, items[1..], width - 1); }
    hide Next, Decode;
  }

  /** The result of a whole evaluation is a path of legal steps, and its request, unless it is the one
      for a pending half instruction, continues the path. */
  lemma EvaluateSound(i: Inputs, width: nat)
    requires !i.rst && !i.kill && Contiguous(InOrder(i.items))
    requires i.pred.cfiValid ==>
             i.pred.nextPc == i.pred.cfiTarget
             && (InOrder(i.items) != [] ==> Exit(i.pred) >= Start(InOrder(i.items)[0]))
    ensures var es, items := Evaluate(i, width).entries, InOrder(i.items);
            && |es| <= |items| && |es| <= width
            && (forall k :: 0 <= k < |es| - 1 ==> es[k].nextPc == es[k + 1].pc)
            && (forall k :: 0 <= k < |es| ==> es[k].pc == items[k].pc && es[k].word == items[k].word)
            && (forall k :: 0 <= k < |es| && !es[k].exc ==> Successor(items[k], es[k].nextPc))
            && (Evaluate(i, width).request.Some? && !EdgeRequest(i, Walk(i.pred, items, width)) ==>
                  es != [] && Evaluate(i, width).request.value.target == es[|es| - 1].nextPc)
            && (forall k :: 0 <= k < |es| ==>
                (es[k].last <==> k == |es| - 1 && (i.last || Evaluate(i, width).request.Some?)))
  {
    PathSound(i.pred, InOrder(i.items), width);
    WalkUnmarked(i.pred, InOrder(i.items), width);
    hide Walk, StableSort.Sorted, Successor, Contiguous;
  }

  lemma WalkNothing(p: Pred, items: seq<Item>, width: nat)
    requires items == [] || width == 0
    ensures Walk(p, items, width) == Walked([], None)
  {
  }

  lemma WalkStep(p: Pred, items: seq<Item>, k: nat, width: nat)
    requires k < |items| && width > 0
    ensures var w := Walk(p, items[k..], width);
            var rest := Walk(p, items[k + 1..], width - 1);
            var fix := Correction(p, items[k]);
            var request := if fix.Some? then Some(RequestFor(items[k], fix.value)) else None;
            w == if Stops(p, items[k]) then Walked([Delivered(p, items[k])], request)
                 else Walked([Delivered(p, items[k])] + rest.entries, rest.request)
  {
    hide Correction, Delivered, RequestFor, Stops;
    assert items[k..][0] == items[k] && items[k..][1..] == items[k + 1..];
  }

  /** The items one by one, leaving at the first that stops the block. */
  method ComputeWalk(p: Pred, items: seq<Item>, width: nat) returns (w: Walked)
    ensures w == Walk(p, items, width)
  {
    hide Walk, Correction, Delivered, RequestFor, Covers;
    var out: seq<Entry>, req: Option<Request>, k := [], None, 0;
    assert items[0..] == items;
    while k < |items| && |out| < width
      invariant 0 <= k <= |items| && |out| == k && k <= width && req.None?
      invariant Walk(p, items, width).entries == out + Walk(p, items[k..], width - k).entries
      invariant Walk(p, items, width).request == Walk(p, items[k..], width - k).request
    {
      var item := items[k];
      var fix := Correction(p, item);
      WalkStep(p, items, k, width - k);
      if fix.Some? { req := Some(RequestFor(item, fix.value)); }
      out := out + [Delivered(p, item)];
      if fix.Some? || item.exc || Covers(p, item) { return Walked(out, req); }
      k := k + 1;
    }
    WalkNothing(p, items[k..], width - k);
    w := Walked(out, req);
  }

  method ComputeEvaluate(i: Inputs, width: nat) returns (r: Outcome)
    ensures r == Evaluate(i, width)
  {
    hide Walk, StableSort.Sorted;
    var ready := i.ready && !(i.rst || i.kill);
    if i.rst || i.kill { return Outcome(ready, [], None); }
    var w := ComputeWalk(i.pred, InOrder(i.items), width);
    var out, req := w.entries, w.request;
    if EdgeRequest(i, w) {
      req := Some(Request(i.pred.ftqId, 7, i.pred.base + 16, false, 0, 0, RasNone, 0));
    }
    if out != [] && (i.last || req.Some?) { out := out[|out| - 1 := out[|out| - 1].(last := true)]; }
    r := Outcome(ready, out, req);
  }

  // ------------------------------------------------------------ test blocks

  /** Consecutive four-byte items from an even slot. */
  function Block(base: nat, words: seq<nat>, ftqId: nat, startSlot: nat, exc: map<nat, (nat, nat)>): seq<Item> {
    seq(|words|, n requires 0 <= n < |words| =>
      Item(startSlot + 2 * n, base + 2 * (startSlot + 2 * n), words[n], ftqId, n in exc,
           if n in exc then exc[n].0 else 0, if n in exc then exc[n].1 else 0, 4, false))
  }

  /** Such a block that does not run past the address space is contiguous, and already in slot order. */
  lemma BlockIsContiguous(base: nat, words: seq<nat>, ftqId: nat, startSlot: nat, exc: map<nat, (nat, nat)>)
    requires base + 2 * (startSlot + 2 * |words|) < TWO64
    ensures Contiguous(Block(base, words, ftqId, startSlot, exc))
    ensures InOrder(Block(base, words, ftqId, startSlot, exc)) == Block(base, words, ftqId, startSlot, exc)
  {
    hide StableSort.Sorted;
    var b := Block(base, words, ftqId, startSlot, exc);
    forall k: nat | k < |b| - 1 ensures Start(b[k + 1]) == End(b[k]) + 1 && b[k + 1].pc == Next(b[k]) {
      BlockNext(base, words, ftqId, startSlot, exc, k);
    }
    StableSort.SortedAlready(b, SlotOf);
  }

  lemma BlockNext(base: nat, words: seq<nat>, ftqId: nat, startSlot: nat, exc: map<nat, (nat, nat)>, k: nat)
    requires base + 2 * (startSlot + 2 * |words|) < TWO64 && k + 1 < |words|
    ensures var b := Block(base, words, ftqId, startSlot, exc);
            |b| == |words| && Start(b[k + 1]) == End(b[k]) + 1 && b[k + 1].pc == Next(b[k])
  {
    var n := base + 2 * (startSlot + 2 * k) + 4;
    Rings.ModOf(n, 0, n, TWO64);
  }
}
