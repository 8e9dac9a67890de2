/** The return-address stack: a ring with a top pointer and a count, recovered from small checkpoints,
    against the bounded stack that forgets its oldest entry. */
module Ras {
  import opened Rings

  datatype Action = None | Push | Pop | PopPush

  datatype Checkpoint = Checkpoint(idx: nat, count: nat, addr: nat)

  datatype Inputs = Inputs(
    reset: bool, opValid: bool, op: Action, opAddr: nat, recover: bool, ckpt: Checkpoint, fix: Action, fixAddr: nat)

  datatype Ring = Ring(depth: nat, entries: seq<nat>, idx: nat, count: nat)

  predicate Valid(s: Ring) { s.depth > 0 && |s.entries| == s.depth && s.idx < s.depth && s.count <= s.depth }

  function ResetRing(depth: nat): Ring
    requires depth > 0
  {
    Ring(depth, seq(depth, _ => 0), depth - 1, 0)
  }

  function TakeCheckpoint(s: Ring): Checkpoint
    requires Valid(s)
  {
    Checkpoint(s.idx, s.count, if s.count > 0 then s.entries[s.idx] else 0)
  }

  /** One action on the ring. */
  function Act(s: Ring, a: Action, addr: nat): Ring
    requires Valid(s)
  {
    match a
    case None => s
    case Push =>
      var idx := (s.idx + 1) % s.depth;
      s.(idx := idx, entries := s.entries[idx := addr], count := if s.count + 1 < s.depth then s.count + 1 else s.depth)
    case Pop => if s.count > 0 then s.(idx := (s.idx - 1) % s.depth, count := s.count - 1) else s
    case PopPush =>
      var s' := if s.count == 0 then s.(idx := (s.idx + 1) % s.depth, count := 1) else s;
      s'.(entries := s'.entries[s'.idx := addr])
  }

  predicate CheckpointOk(s: Ring, k: Checkpoint) { k.idx < s.depth && k.count <= s.depth }

  function Recovered(s: Ring, k: Checkpoint): Ring
    requires Valid(s) && CheckpointOk(s, k)
  {
    s.(idx := k.idx, count := k.count, entries := if k.count > 0 then s.entries[k.idx := k.addr] else s.entries)
  }

  function Advance(s: Ring, i: Inputs): Ring
    requires Valid(s) && CheckpointOk(s, i.ckpt)
  {
    if i.reset then ResetRing(s.depth)
    else if i.recover then Act(Recovered(s, i.ckpt), i.fix, i.fixAddr)
    else if i.opValid then Act(s, i.op, i.opAddr)
    else s
  }

  // ------------------------------------------------------------ the bounded stack

  /** Oldest entry first. */
  function Apply(st: seq<nat>, depth: nat, a: Action, addr: nat): seq<nat> {
    match a
    case None => st
    case Push => (if |st| == depth && st != [] then st[1..] else st) + [addr]
    case Pop => if st == [] then [] else st[..|st| - 1]
    case PopPush => if st == [] then [addr] else st[..|st| - 1] + [addr]
  }

  /** The ring slot of height k above the bottom of the stack. */
  function Slot(base: nat, k: nat, depth: nat): nat
    requires depth > 0
  {
    (base + k) % depth
  }

  /** The slot of the oldest entry. */
  function Bottom(s: Ring): nat
    requires Valid(s)
  {
    (s.idx + 1 - s.count) % s.depth
  }

  function Stack(s: Ring): seq<nat>
    requires Valid(s)
  {
    seq(s.count, k requires 0 <= k < s.count => s.entries[Slot(Bottom(s), k, s.depth)])
  }

  /** The pointer is at the top of the stack, one below the bottom when it is empty. */
  lemma TopSlot(s: Ring)
    requires Valid(s)
    ensures Bottom(s) < s.depth && (Bottom(s) + s.count - 1) % s.depth == s.idx
    ensures s.count > 0 ==> Slot(Bottom(s), s.count - 1, s.depth) == s.idx
  {
    WrapOnce(s.idx + 1 - s.count, s.depth);
    WrapOnce(Bottom(s) + s.count - 1, s.depth);
  }

  /** A bottom and a count determine the pointer, and the pointer and the count the bottom. */
  lemma BottomFrom(s: Ring, base: nat)
    requires Valid(s) && base < s.depth && s.idx == (base + s.count - 1) % s.depth
    ensures Bottom(s) == base
  {
    WrapOnce(base + s.count - 1, s.depth);
    WrapOnce(s.idx + 1 - s.count, s.depth);
  }

  lemma SlotsDiffer(base: nat, j: nat, k: nat, depth: nat)
    requires base < depth && j < depth && k < depth && j != k
    ensures Slot(base, j, depth) != Slot(base, k, depth)
  {
    WrapOnce(base + j, depth);
    WrapOnce(base + k, depth);
  }

  /** Where an action leaves the bottom and the count, and the only height at which it may write. */
  lemma ActEffect(s: Ring, a: Action, addr: nat)
    requires Valid(s) && !(a == Push && s.count == s.depth)
    ensures Valid(Act(s, a, addr)) && Bottom(Act(s, a, addr)) == Bottom(s)
    ensures Act(s, a, addr).count == |Apply(Stack(s), s.depth, a, addr)|
    ensures var s' := Act(s, a, addr);
            s'.entries == if a == Push || a == PopPush then s.entries[Slot(Bottom(s), s'.count - 1, s.depth) := addr]
                          else s.entries
  {
    TopSlot(s);
    var s' := Act(s, a, addr);
    var b := Bottom(s);
    WrapOnce(b + s.count - 1, s.depth);
    WrapOnce(b + s.count, s.depth);
    if s.count > 0 { WrapOnce(b + s.count - 2, s.depth); }
    WrapOnce(s.idx + 1, s.depth);
    WrapOnce(s.idx - 1, s.depth);
    BottomFrom(s', b);
    TopSlot(s');
    hide Bottom;
  }

  /** Without overflow the ring does what the stack does. */
  lemma ActIsApply(s: Ring, a: Action, addr: nat)
    requires Valid(s) && !(a == Push && s.count == s.depth)
    ensures Valid(Act(s, a, addr)) && Stack(Act(s, a, addr)) == Apply(Stack(s), s.depth, a, addr)
  {
    ActEffect(s, a, addr);
    TopSlot(s);
    var s', st := Act(s, a, addr), Apply(Stack(s), s.depth, a, addr);
    hide Act, Bottom;
    forall k | 0 <= k < s'.count ensures Stack(s')[k] == st[k] {
      if k != s'.count - 1 { SlotsDiffer(Bottom(s), k, s'.count - 1, s.depth); }
    }
  }

  /** A push onto a full ring writes over the oldest entry, and the next one becomes the bottom. */
  lemma OverflowIsApply(s: Ring, addr: nat)
    requires Valid(s) && s.count == s.depth
    ensures Valid(Act(s, Push, addr)) && Stack(Act(s, Push, addr)) == Stack(s)[1..] + [addr]
  {
    TopSlot(s);
    var s', b := Act(s, Push, addr), Bottom(s);
    WrapOnce(b + s.count - 1, s.depth);
    WrapOnce(s.idx + 1, s.depth);
    assert s'.idx == b;
    WrapOnce(s'.idx + 1 - s'.count, s.depth);
    WrapOnce(b + 1, s.depth);
    var b' := Bottom(s');
    forall k | 0 <= k < s'.count ensures Stack(s')[k] == (Stack(s)[1..] + [addr])[k] {
      WrapOnce(b' + k, s.depth);
      WrapOnce(b + k, s.depth);
      if k < s.count - 1 { WrapOnce(b + k + 1, s.depth); }
    }
  }

  /** The ring refines the bounded stack, overflow included. */
  lemma RingIsStack(s: Ring, a: Action, addr: nat)
    requires Valid(s)
    ensures Valid(Act(s, a, addr)) && Stack(Act(s, a, addr)) == Apply(Stack(s), s.depth, a, addr)
  {
    if a == Push && s.count == s.depth { OverflowIsApply(s, addr); } else { ActIsApply(s, a, addr); }
    hide Act;
  }

  // ------------------------------------------------------------------ recovery

  lemma RecoveredValid(s: Ring, k: Checkpoint)
    requires Valid(s) && CheckpointOk(s, k)
    ensures Valid(Recovered(s, k))
  {
  }

  /** Recovering a checkpoint of s0 in a later state gives back the whole stack exactly when the entries
      under the checkpointed top are still in their slots. */
  lemma RecoveryExact(s0: Ring, s: Ring)
    requires Valid(s0) && Valid(s) && s.depth == s0.depth
    ensures CheckpointOk(s, TakeCheckpoint(s0)) && Valid(Recovered(s, TakeCheckpoint(s0)))
    ensures Stack(Recovered(s, TakeCheckpoint(s0))) == Stack(s0) <==> Undamaged(s0, s)
  {
    var r := Recovered(s, TakeCheckpoint(s0));
    TopSlot(s0);
    var b := Bottom(s0);
    assert Bottom(r) == b;
    forall k | 0 <= k < s0.count
      ensures Stack(r)[k] == if k == s0.count - 1 then Stack(s0)[k] else s.entries[Slot(b, k, s.depth)]
    {
      if k != s0.count - 1 { SlotsDiffer(b, k, s0.count - 1, s.depth); }
    }
    hide Recovered, Bottom, Slot;
    if Undamaged(s0, s) {
      forall k | 0 <= k < s0.count ensures Stack(r)[k] == Stack(s0)[k] { }
    } else {
      var k :| 0 <= k < s0.count - 1 && s.entries[Slot(b, k, s0.depth)] != s0.entries[Slot(b, k, s0.depth)];
      assert Stack(r)[k] != Stack(s0)[k];
    }
  }

  predicate Undamaged(s0: Ring, s: Ring)
    requires Valid(s0) && Valid(s) && s.depth == s0.depth
  {
    forall k :: 0 <= k < s0.count - 1 ==>
      s.entries[Slot(Bottom(s0), k, s0.depth)] == s0.entries[Slot(Bottom(s0), k, s0.depth)]
  }

  /** An action that leaves what lies under a checkpoint of this count alone: no push overflows, and what
      is written ends at the checkpointed height or above. */
  predicate Gentle(count: nat, depth: nat, a: Action, height: nat) {
    !(a == Push && count == depth)
    && (a == Push ==> count + 1 >= height)
    && (a == PopPush ==> count >= height || (count == 0 && height <= 1))
  }

  /** A gentle cycle: no reset; an operation as above, or a recovery of a checkpoint with the same bottom,
      empty or at least as high, followed by such an action. */
  predicate GentleStep(s: Ring, i: Inputs, base: nat, height: nat)
    requires Valid(s) && base < s.depth
  {
    && !i.reset && CheckpointOk(s, i.ckpt)
    && (if i.recover then
          && i.ckpt.idx == (base + i.ckpt.count - 1) % s.depth && (i.ckpt.count == 0 || i.ckpt.count >= height)
          && Gentle(i.ckpt.count, s.depth, i.fix, height)
        else i.opValid ==> Gentle(s.count, s.depth, i.op, height))
  }

  /** The ring still has the bottom of s0 and what lay under its top. */
  predicate Sheltered(s0: Ring, s: Ring)
    requires Valid(s0)
  {
    Valid(s) && s.depth == s0.depth && Bottom(s) == Bottom(s0) && Undamaged(s0, s)
  }

  lemma GentleKeeps(s0: Ring, s: Ring, a: Action, addr: nat)
    requires Valid(s0) && Sheltered(s0, s) && Gentle(s.count, s.depth, a, s0.count)
    ensures Valid(Act(s, a, addr)) && Sheltered(s0, Act(s, a, addr))
  {
    ActEffect(s, a, addr);
    TopSlot(s0);
    var s', b := Act(s, a, addr), Bottom(s0);
    assert s'.depth == s.depth;
    assert a == Push ==> s'.count == s.count + 1;
    assert a == PopPush ==> s'.count == if s.count == 0 then 1 else s.count;
    hide Act, Bottom;
    forall k | 0 <= k < s0.count - 1 ensures s'.entries[Slot(b, k, s0.depth)] == s0.entries[Slot(b, k, s0.depth)] {
      if a == Push || a == PopPush { SlotsDiffer(b, k, s'.count - 1, s.depth); }
    }
  }

  lemma RecoveryKeeps(s0: Ring, s: Ring, k: Checkpoint)
    requires Valid(s0) && Sheltered(s0, s) && CheckpointOk(s, k)
    requires k.idx == (Bottom(s0) + k.count - 1) % s.depth && (k.count == 0 || k.count >= s0.count)
    ensures Valid(Recovered(s, k)) && Sheltered(s0, Recovered(s, k))
  {
    var s', b := Recovered(s, k), Bottom(s0);
    TopSlot(s0);
    BottomFrom(s', b);
    hide Bottom;
    forall j | 0 <= j < s0.count - 1 ensures s'.entries[Slot(b, j, s0.depth)] == s0.entries[Slot(b, j, s0.depth)] {
      if k.count > 0 { SlotsDiffer(b, j, k.count - 1, s.depth); }
    }
  }

  lemma GentleStepKeeps(s0: Ring, s: Ring, i: Inputs)
    requires Valid(s0) && Sheltered(s0, s) && Bottom(s0) < s0.depth && GentleStep(s, i, Bottom(s0), s0.count)
    ensures Valid(Advance(s, i)) && Sheltered(s0, Advance(s, i))
  {
    hide Bottom, Act, Recovered, Undamaged;
    if i.recover {
      RecoveryKeeps(s0, s, i.ckpt);
      assert Recovered(s, i.ckpt).count == i.ckpt.count && Recovered(s, i.ckpt).depth == s.depth by {
        RecoveredCount(s, i.ckpt);
      }
      GentleKeeps(s0, Recovered(s, i.ckpt), i.fix, i.fixAddr);
    } else if i.opValid {
      GentleKeeps(s0, s, i.op, i.opAddr);
    }
  }

  lemma RecoveredCount(s: Ring, k: Checkpoint)
    requires Valid(s) && CheckpointOk(s, k)
    ensures Recovered(s, k).count == k.count && Recovered(s, k).depth == s.depth
  {
  }

  ghost predicate GentleRun(s: Ring, inputs: seq<Inputs>, base: nat, height: nat, s': Ring)
    decreases inputs
  {
    if inputs == [] then s' == s
    else
      && Valid(s) && base < s.depth && GentleStep(s, inputs[0], base, height)
      && GentleRun(Advance(s, inputs[0]), inputs[1..], base, height, s')
  }

  lemma {:induction false} ShelteredRun(s0: Ring, s: Ring, inputs: seq<Inputs>, s': Ring)
    requires Valid(s0) && Sheltered(s0, s) && GentleRun(s, inputs, Bottom(s0), s0.count, s')
    ensures Sheltered(s0, s')
    decreases inputs
  {
    hide Sheltered, Bottom, Act, Recovered, Gentle, Advance;
    TopSlot(s0);
    if inputs != [] {
      GentleStepKeeps(s0, s, inputs[0]);
      ShelteredRun(s0, Advance(s, inputs[0]), inputs[1..], s');
    }
  }

  /** A checkpoint brings the whole stack back after any gentle run, and a repair on top of it acts on that
      stack. A checkpoint of the empty stack is always good. */
  lemma RecoveryRestores(s0: Ring, inputs: seq<Inputs>, s: Ring, fix: Action, fixAddr: nat)
    requires Valid(s0) && GentleRun(s0, inputs, Bottom(s0), s0.count, s)
    ensures Valid(s) && s.depth == s0.depth && CheckpointOk(s, TakeCheckpoint(s0))
            && Valid(Recovered(s, TakeCheckpoint(s0)))
    ensures Stack(Recovered(s, TakeCheckpoint(s0))) == Stack(s0)
    ensures var i := Inputs(false, false, None, 0, true, TakeCheckpoint(s0), fix, fixAddr);
            Valid(Advance(s, i)) && Stack(Advance(s, i)) == Apply(Stack(s0), s0.depth, fix, fixAddr)
  {
    assert Sheltered(s0, s0);
    ShelteredRun(s0, s0, inputs, s);
    RecoveryExact(s0, s);
    RingIsStack(Recovered(s, TakeCheckpoint(s0)), fix, fixAddr);
    hide Stack, Act, Apply, Undamaged, Bottom;
  }

  lemma EmptyCheckpoint(s0: Ring, s: Ring)
    requires Valid(s0) && Valid(s) && s.depth == s0.depth && s0.count <= 1
    ensures CheckpointOk(s, TakeCheckpoint(s0)) && Valid(Recovered(s, TakeCheckpoint(s0)))
    ensures Stack(Recovered(s, TakeCheckpoint(s0))) == Stack(s0)
  {
    RecoveryExact(s0, s);
    hide Stack;
  }

  // ------------------------------------------- what the rules keep away from

  /** Two pops and a push between checkpoint and recovery replace the entry under the top. */
  lemma DeepPushDamages(s0: Ring, x: nat)
    requires Valid(s0) && s0.count >= 2
    ensures var s := Act(Act(Act(s0, Pop, 0), Pop, 0), Push, x);
            && Valid(Act(s0, Pop, 0)) && Valid(Act(Act(s0, Pop, 0), Pop, 0)) && Valid(s)
            && CheckpointOk(s, TakeCheckpoint(s0))
            && Valid(Recovered(s, TakeCheckpoint(s0)))
            && Stack(Recovered(s, TakeCheckpoint(s0))) == Stack(s0)[s0.count - 2 := x]
  {
    ActEffect(s0, Pop, 0);
    var s1 := Act(s0, Pop, 0);
    ActEffect(s1, Pop, 0);
    var s2 := Act(s1, Pop, 0);
    ActEffect(s2, Push, x);
    var s := Act(s2, Push, x);
    assert s.depth == s0.depth && s.count == s0.count - 1;
    hide Act;
    var b := Bottom(s0);
    TopSlot(s0);
    assert s.entries == s0.entries[Slot(b, s0.count - 2, s0.depth) := x];
    DamageAt(s0, s, s0.count - 2, x);
  }

  /** A push that overflows after the checkpoint replaces the oldest entry. */
  lemma OverflowDamages(s0: Ring, x: nat)
    requires Valid(s0) && s0.count == s0.depth >= 2
    ensures var s := Act(s0, Push, x);
            Valid(s) && CheckpointOk(s, TakeCheckpoint(s0)) && Valid(Recovered(s, TakeCheckpoint(s0)))
            && Stack(Recovered(s, TakeCheckpoint(s0))) == Stack(s0)[0 := x]
  {
    TopSlot(s0);
    var s, b := Act(s0, Push, x), Bottom(s0);
    WrapOnce(b + s0.count - 1, s0.depth);
    WrapOnce(s0.idx + 1, s0.depth);
    WrapOnce(b, s0.depth);
    assert s.entries == s0.entries[Slot(b, 0, s0.depth) := x];
    DamageAt(s0, s, 0, x);
  }

  lemma DamageAt(s0: Ring, s: Ring, j: nat, x: nat)
    requires Valid(s0) && Valid(s) && s.depth == s0.depth && j < s0.count - 1
    requires Bottom(s0) < s0.depth && s.entries == s0.entries[Slot(Bottom(s0), j, s0.depth) := x]
    ensures CheckpointOk(s, TakeCheckpoint(s0)) && Valid(Recovered(s, TakeCheckpoint(s0)))
    ensures Stack(Recovered(s, TakeCheckpoint(s0))) == Stack(s0)[j := x]
  {
    var r := Recovered(s, TakeCheckpoint(s0));
    TopSlot(s0);
    var b := Bottom(s0);
    assert Bottom(r) == b;
    forall k | 0 <= k < s0.count ensures Stack(r)[k] == Stack(s0)[j := x][k] {
      if k != s0.count - 1 { SlotsDiffer(b, k, s0.count - 1, s.depth); }
      if k != j { SlotsDiffer(b, k, j, s.depth); }
    }
  }

  // -------------------------------------------------------------------- events

  function Bit(b: bool): nat { if b then 1 else 0 }

  /** Four event bits: push, pop, underflow and overflow. */
  function Events(s: Ring, i: Inputs): nat {
    if i.reset || !(i.recover || i.opValid) then 0
    else
      var count := if i.recover then i.ckpt.count else s.count;
      var a := if i.recover then i.fix else i.op;
      var push, pop := a == Push || a == PopPush, a == Pop || a == PopPush;
      Bit(push) + 2 * Bit(pop) + 4 * Bit(pop && count == 0) + 8 * Bit(a == Push && count == s.depth)
  }

  lemma EventBits(push: bool, pop: bool, under: bool, over: bool)
    ensures var e := Bit(push) + 2 * Bit(pop) + 4 * Bit(under) + 8 * Bit(over);
            && (e % 2 == 1 <==> push) && (e / 2 % 2 == 1 <==> pop)
            && (e / 4 % 2 == 1 <==> under) && (e / 8 % 2 == 1 <==> over)
  {
  }

  /** The stack that the action of this cycle works on. */
  function Before(s: Ring, i: Inputs): Ring
    requires Valid(s) && CheckpointOk(s, i.ckpt)
  {
    if i.recover then Recovered(s, i.ckpt) else s
  }

  /** The overflow bit is up exactly when a push leaves the height as it was, and then the oldest entry is
      lost; the underflow bit exactly when a pop has nothing to take. The push and pop bits tell what becomes of the
      stack: a pop takes its top, a push adds one, and both replace it. */
  lemma EventsTell(s: Ring, i: Inputs)
    requires Valid(s) && CheckpointOk(s, i.ckpt) && !i.reset && (i.recover || i.opValid)
    ensures Valid(Before(s, i)) && Valid(Advance(s, i))
    ensures var st, st', e := Stack(Before(s, i)), Stack(Advance(s, i)), Events(s, i);
            && (e / 8 % 2 == 1 <==> e % 2 == 1 && e / 2 % 2 == 0 && |st'| == |st|)
            && (e / 8 % 2 == 1 ==> st' == st[1..] + [if i.recover then i.fixAddr else i.opAddr])
            && (e / 4 % 2 == 1 <==> e / 2 % 2 == 1 && st == [])
    ensures var st, st', e := Stack(Before(s, i)), Stack(Advance(s, i)), Events(s, i);
            var push, pop := e % 2 == 1, e / 2 % 2 == 1;
            && e < 0x10
            && st' == (if pop then (if st == [] then [] else st[..|st| - 1])
                       else if push && |st| == s.depth then st[1..]
                       else st)
                      + (if push then [if i.recover then i.fixAddr else i.opAddr] else [])
  {
    RecoveredValid(s, i.ckpt);
    var t := Before(s, i);
    var a, addr := if i.recover then i.fix else i.op, if i.recover then i.fixAddr else i.opAddr;
    RingIsStack(t, a, addr);
    assert |Stack(t)| == t.count && t.count == if i.recover then i.ckpt.count else s.count;
    assert t.depth == s.depth && Advance(s, i) == Act(t, a, addr);
    var pop := a == Pop || a == PopPush;
    EventBits(a == Push || a == PopPush, pop, pop && t.count == 0, a == Push && t.count == s.depth);
    hide Act, Recovered, Stack, Bit, Advance;
  }

  /** A cycle that does nothing reports nothing, and a reset empties the stack. */
  lemma QuietCycles(s: Ring, i: Inputs)
    requires Valid(s) && CheckpointOk(s, i.ckpt) && (i.reset || !(i.recover || i.opValid))
    ensures Events(s, i) == 0
    ensures if i.reset then Valid(Advance(s, i)) && Stack(Advance(s, i)) == [] && Advance(s, i).depth == s.depth
            else Advance(s, i) == s
  {
    hide Act, Recovered;
  }

  /** A checkpoint shows the height of the stack and its top. */
  lemma CheckpointShows(s: Ring)
    requires Valid(s)
    ensures var k, st := TakeCheckpoint(s), Stack(s);
            k.count == |st| && k.addr == (if st == [] then 0 else st[|st| - 1])
  {
    TopSlot(s);
  }

  // ------------------------------------------------------- the model as an object

  class RasModel {
    const depth: nat
    var entries: seq<nat>
    var idx: nat
    var count: nat

    ghost function View(): Ring
      reads this
    {
      Ring(depth, entries, idx, count)
    }

    constructor (depth: nat)
      requires depth > 0
      ensures this.depth == depth && View() == ResetRing(depth)
    {
      this.depth := depth;
      entries, idx, count := seq(depth, _ => 0), depth - 1, 0;
    }

    /** Reading the checkpoint port. */
    method ReadCheckpoint() returns (k: Checkpoint)
      requires Valid(View())
      ensures k == TakeCheckpoint(View())
    {
      k := Checkpoint(idx, count, if count > 0 then entries[idx] else 0);
    }

    /** One clock edge. Checkpoints come from this ring, so they name one of its slots. */
    method Step(i: Inputs)
      requires Valid(View()) && CheckpointOk(View(), i.ckpt)
      modifies this
      ensures View() == Advance(old(View()), i) && Valid(View())
    {
      hide Stack, Bottom;
      StepValid(View(), i);
      if i.reset {
        entries, idx, count := seq(depth, _ => 0), depth - 1, 0;
        return;
      }
      if !(i.recover || i.opValid) { return; }
      if i.recover {
        idx, count := i.ckpt.idx, i.ckpt.count;
        if count > 0 { entries := entries[idx := i.ckpt.addr]; }
      }
      var action, addr := if i.recover then i.fix else i.op, if i.recover then i.fixAddr else i.opAddr;
      if action == Push {
        idx := (idx + 1) % depth;
        entries := entries[idx := addr];
        count := if count + 1 < depth then count + 1 else depth;
      } else if action == Pop {
        if count > 0 { idx, count := (idx - 1) % depth, count - 1; }
      } else if action == PopPush {
        if count == 0 { idx, count := (idx + 1) % depth, 1; }
        entries := entries[idx := addr];
      }
    }
  }

  lemma StepValid(s: Ring, i: Inputs)
    requires Valid(s) && CheckpointOk(s, i.ckpt)
    ensures Valid(Advance(s, i))
  {
    RecoveredValid(s, i.ckpt);
    RingIsStack(s, i.op, i.opAddr);
    RingIsStack(Recovered(s, i.ckpt), i.fix, i.fixAddr);
    hide Act, Recovered, Stack;
  }
}
