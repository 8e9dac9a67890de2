/** When a checkpoint of the return-address stack is still good after a run, told from the operations of the
    run alone: from the heights at which they write, not from what the ring holds. */
module RasRuns {
  import opened Rings
  import opened Wrappers
  import opened Ras

  /** Where the top is, counted from the checkpointed bottom without wrapping, and how many entries are live. */
  datatype Height = Height(height: int, count: nat)

  predicate Usable(depth: nat, i: Inputs) { !i.reset && i.ckpt.idx < depth && i.ckpt.count <= depth }

  predicate Writes(a: Action) { a == Push || a == PopPush }

  function Move(h: Height, depth: nat, a: Action): Height {
    match a
    case None => h
    case Push => Height(h.height + 1, if h.count + 1 < depth then h.count + 1 else depth)
    case Pop => if h.count > 0 then Height(h.height - 1, h.count - 1) else h
    case PopPush => if h.count == 0 then Height(h.height + 1, 1) else h
  }

  /** A checkpoint puts the top back to the height of its slot. */
  function Restored(base: nat, k: Checkpoint): Height { Height(k.idx - base + 1, k.count) }

  function HeightAfter(base: nat, count: nat, depth: nat, inputs: seq<Inputs>): Height {
    if inputs == [] then Height(count, count)
    else
      var h, i := HeightAfter(base, count, depth, inputs[..|inputs| - 1]), inputs[|inputs| - 1];
      if i.recover then Move(Restored(base, i.ckpt), depth, i.fix)
      else if i.opValid then Move(h, depth, i.op)
      else h
  }

  /** What height h leaves in position j of the ring, if an action or a checkpoint writes there. */
  function Written(h: Height, depth: nat, writes: bool, addr: nat, j: nat, before: Option<nat>): Option<nat>
    requires depth > 0
  {
    if writes && (h.height - 1) % depth == j then Some(addr) else before
  }

  /** The address that the run last wrote at position j above the checkpointed bottom. */
  function LastWrite(base: nat, count: nat, depth: nat, inputs: seq<Inputs>, j: nat): Option<nat>
    requires depth > 0
  {
    if inputs == [] then Option.None
    else
      var rest, i := inputs[..|inputs| - 1], inputs[|inputs| - 1];
      var h, before := HeightAfter(base, count, depth, inputs), LastWrite(base, count, depth, rest, j);
      if i.recover then
        Written(h, depth, Writes(i.fix), i.fixAddr, j,
                Written(Restored(base, i.ckpt), depth, i.ckpt.count > 0, i.ckpt.addr, j, before))
      else Written(h, depth, i.opValid && Writes(i.op), i.opAddr, j, before)
  }

  function After(s: Ring, inputs: seq<Inputs>): (r: Ring)
    requires Valid(s) && forall k :: 0 <= k < |inputs| ==> Usable(s.depth, inputs[k])
    ensures Valid(r) && r.depth == s.depth
  {
    if inputs == [] then s
    else
      var r := After(s, inputs[..|inputs| - 1]);
      AdvanceValid(r, inputs[|inputs| - 1]);
      Advance(r, inputs[|inputs| - 1])
  }

  lemma ActValid(s: Ring, a: Action, addr: nat)
    requires Valid(s)
    ensures Valid(Act(s, a, addr)) && Act(s, a, addr).depth == s.depth
  {
  }

  lemma AdvanceValid(s: Ring, i: Inputs)
    requires Valid(s) && Usable(s.depth, i)
    ensures Valid(Advance(s, i)) && Advance(s, i).depth == s.depth
  {
    RecoveredValid(s, i.ckpt);
    ActValid(Recovered(s, i.ckpt), i.fix, i.fixAddr);
    ActValid(s, i.op, i.opAddr);
    hide Act;
  }

  // ------------------------------------------------------------- the ring, by height

  /** The ring's pointer and count are those of the height. */
  predicate At(s: Ring, base: nat, h: Height) {
    s.depth > 0 && s.count == h.count && s.idx == (base + h.height - 1) % s.depth
  }

  lemma StepMod(x: int, d: nat)
    requires d > 0
    ensures (x % d + 1) % d == (x + 1) % d && (x % d - 1) % d == (x - 1) % d
  {
    var q, r := x / d, x % d;
    assert x == q * d + r;
    if r + 1 < d { ModOf(x + 1, q, r + 1, d); ModOf(r + 1, 0, r + 1, d); } else {
      assert (q + 1) * d == q * d + d;
      ModOf(x + 1, q + 1, 0, d);
      ModOf(r + 1, 1, 0, d);
    }
    if r > 0 { ModOf(x - 1, q, r - 1, d); ModOf(r - 1, 0, r - 1, d); } else {
      assert (q - 1) * d == q * d - d;
      ModOf(x - 1, q - 1, d - 1, d);
      ModOf(r - 1, -1, d - 1, d);
    }
  }

  /** A position of the ring is hit by exactly one height modulo the depth. */
  lemma SlotOfHeight(base: nat, x: int, j: nat, d: nat)
    requires base < d && j < d
    ensures (base + x) % d == Slot(base, j, d) <==> x % d == j
  {
    var q, r := x / d, x % d;
    assert x == q * d + r;
    WrapOnce(base + r, d);
    if base + r < d { ModOf(base + x, q, base + r, d); } else {
      assert (q + 1) * d == q * d + d;
      ModOf(base + x, q + 1, base + r - d, d);
    }
    if r != j { SlotsDiffer(base, r, j, d); }
  }

  lemma ActMoves(s: Ring, base: nat, h: Height, a: Action, addr: nat)
    requires Valid(s) && At(s, base, h)
    ensures At(Act(s, a, addr), base, Move(h, s.depth, a))
    ensures var s' := Act(s, a, addr); s'.entries == if Writes(a) then s.entries[s'.idx := addr] else s.entries
  {
    StepMod(base + h.height - 1, s.depth);
  }

  lemma ActWrites(s: Ring, base: nat, h: Height, a: Action, addr: nat, j: nat, before: Option<nat>, original: nat)
    requires Valid(s) && At(s, base, h) && base < s.depth && j < s.depth
    requires s.entries[Slot(base, j, s.depth)] == Or(before, original)
    ensures var w := Written(Move(h, s.depth, a), s.depth, Writes(a), addr, j, before);
            Valid(Act(s, a, addr)) && Act(s, a, addr).entries[Slot(base, j, s.depth)] == Or(w, original)
  {
    ActValid(s, a, addr);
    ActMoves(s, base, h, a, addr);
    SlotOfHeight(base, Move(h, s.depth, a).height - 1, j, s.depth);
    hide Act, Move, Slot;
  }

  function Or(x: Option<nat>, d: nat): nat { if x.Some? then x.value else d }

  lemma RestoredAt(s: Ring, base: nat, k: Checkpoint)
    requires Valid(s) && CheckpointOk(s, k) && base < s.depth
    ensures At(Recovered(s, k), base, Restored(base, k))
  {
    ModOf(k.idx, 0, k.idx, s.depth);
  }

  lemma RestoredWrites(s: Ring, base: nat, k: Checkpoint, j: nat, before: Option<nat>, original: nat)
    requires Valid(s) && CheckpointOk(s, k) && base < s.depth && j < s.depth
    requires s.entries[Slot(base, j, s.depth)] == Or(before, original)
    ensures var w := Written(Restored(base, k), s.depth, k.count > 0, k.addr, j, before);
            Recovered(s, k).entries[Slot(base, j, s.depth)] == Or(w, original)
  {
    SlotOfHeight(base, k.idx - base, j, s.depth);
    ModOf(k.idx, 0, k.idx, s.depth);
    hide Slot;
  }

  /** After any run without a reset, each position holds what the run last wrote there, or what it held. */
  lemma {:induction false} RunWrites(s0: Ring, inputs: seq<Inputs>, j: nat)
    requires Valid(s0) && j < s0.depth && forall k :: 0 <= k < |inputs| ==> Usable(s0.depth, inputs[k])
    ensures Bottom(s0) < s0.depth
    ensures At(After(s0, inputs), Bottom(s0), HeightAfter(Bottom(s0), s0.count, s0.depth, inputs))
    ensures var slot := Slot(Bottom(s0), j, s0.depth);
            After(s0, inputs).entries[slot]
            == Or(LastWrite(Bottom(s0), s0.count, s0.depth, inputs, j), s0.entries[slot])
    decreases |inputs|
  {
    TopSlot(s0);
    if inputs != [] {
      var rest, i := inputs[..|inputs| - 1], inputs[|inputs| - 1];
      RunWrites(s0, rest, j);
      StepWrites(s0, After(s0, rest), HeightAfter(Bottom(s0), s0.count, s0.depth, rest), i, j,
                 LastWrite(Bottom(s0), s0.count, s0.depth, rest, j));
    }
    hide Bottom, Advance, Slot, Move, Written, Restored;
  }

  lemma StepWrites(s0: Ring, s: Ring, h: Height, i: Inputs, j: nat, before: Option<nat>)
    requires Valid(s0) && Valid(s) && s.depth == s0.depth && j < s.depth && Usable(s.depth, i)
    requires Bottom(s0) < s.depth && At(s, Bottom(s0), h)
    requires var slot := Slot(Bottom(s0), j, s.depth); s.entries[slot] == Or(before, s0.entries[slot])
    ensures var base := Bottom(s0);
            var slot := Slot(base, j, s.depth);
            var h' := if i.recover then Move(Restored(base, i.ckpt), s.depth, i.fix)
                      else if i.opValid then Move(h, s.depth, i.op) else h;
            var w := if i.recover then
                       Written(h', s.depth, Writes(i.fix), i.fixAddr, j,
                               Written(Restored(base, i.ckpt), s.depth, i.ckpt.count > 0, i.ckpt.addr, j, before))
                     else Written(h', s.depth, i.opValid && Writes(i.op), i.opAddr, j, before);
            && Valid(Advance(s, i)) && Advance(s, i).depth == s.depth && At(Advance(s, i), base, h')
            && Advance(s, i).entries[slot] == Or(w, s0.entries[slot])
  {
    var base := Bottom(s0);
    var original := s0.entries[Slot(base, j, s.depth)];
    AdvanceValid(s, i);
    if i.recover {
      var r := Recovered(s, i.ckpt);
      RecoveredValid(s, i.ckpt);
      RestoredAt(s, base, i.ckpt);
      RestoredWrites(s, base, i.ckpt, j, before, original);
      ActMoves(r, base, Restored(base, i.ckpt), i.fix, i.fixAddr);
      ActWrites(r, base, Restored(base, i.ckpt), i.fix, i.fixAddr, j,
                Written(Restored(base, i.ckpt), s.depth, i.ckpt.count > 0, i.ckpt.addr, j, before), original);
    } else if i.opValid {
      ActMoves(s, base, h, i.op, i.opAddr);
      ActWrites(s, base, h, i.op, i.opAddr, j, before, original);
    }
    hide Bottom, Act, Slot, Move, Recovered, Restored, Written;
  }

  // ------------------------------------------------------------------- theorems

  /** A checkpoint brings the whole stack back after a run exactly when, at every height under its top, the run
      last wrote nothing or the address that was there. */
  lemma RecoveryByWrites(s0: Ring, inputs: seq<Inputs>)
    requires Valid(s0) && forall k :: 0 <= k < |inputs| ==> Usable(s0.depth, inputs[k])
    ensures var s, k := After(s0, inputs), TakeCheckpoint(s0);
            && CheckpointOk(s, k) && Valid(Recovered(s, k))
            && (Stack(Recovered(s, k)) == Stack(s0) <==>
                forall j :: 0 <= j < s0.count - 1 ==>
                  var w := LastWrite(Bottom(s0), s0.count, s0.depth, inputs, j);
                  w == Option.None || w == Some(Stack(s0)[j]))
  {
    var s := After(s0, inputs);
    RecoveryExact(s0, s);
    forall j | 0 <= j < s0.count - 1
      ensures var slot := Slot(Bottom(s0), j, s0.depth);
              s.entries[slot] == Or(LastWrite(Bottom(s0), s0.count, s0.depth, inputs, j), s0.entries[slot])
              && Stack(s0)[j] == s0.entries[slot]
    {
      RunWrites(s0, inputs, j);
    }
    hide Recovered, Bottom, Slot, LastWrite, After;
  }

  /** A cycle of ordinary operation, neither reset nor recovery, writing an address not on the stack. */
  predicate Ordinary(s0: Ring, i: Inputs)
    requires Valid(s0)
  {
    !i.recover && (i.opValid && Writes(i.op) ==> i.opAddr !in Stack(s0))
  }

  /** The position of the top after a run, if it is written. */
  function Struck(base: nat, count: nat, depth: nat, inputs: seq<Inputs>): int
    requires depth > 0
  {
    (HeightAfter(base, count, depth, inputs).height - 1) % depth
  }

  /** The last of the inputs writes at a height that lies, modulo the depth, under the checkpointed top. */
  predicate Strikes(base: nat, count: nat, depth: nat, inputs: seq<Inputs>)
    requires depth > 0 && inputs != []
  {
    var i := inputs[|inputs| - 1];
    i.opValid && Writes(i.op) && Struck(base, count, depth, inputs) < count - 1
  }

  lemma {:induction false} StruckSomewhere(s0: Ring, inputs: seq<Inputs>, j: nat)
    requires Valid(s0) && j < s0.count - 1
    requires forall k :: 0 <= k < |inputs| ==> Usable(s0.depth, inputs[k]) && Ordinary(s0, inputs[k])
    ensures var w := LastWrite(Bottom(s0), s0.count, s0.depth, inputs, j);
            && (w.Some? ==> w.value !in Stack(s0))
            && (w.Some? <==> exists n :: 0 < n <= |inputs| && Strikes(Bottom(s0), s0.count, s0.depth, inputs[..n])
                                         && Struck(Bottom(s0), s0.count, s0.depth, inputs[..n]) == j)
    decreases |inputs|
  {
    var base := Bottom(s0);
    if inputs != [] {
      var rest := inputs[..|inputs| - 1];
      StruckSomewhere(s0, rest, j);
      assert inputs[..|inputs|] == inputs;
      forall n | 0 < n <= |rest| ensures rest[..n] == inputs[..n] { }
    }
    hide Bottom, Stack, HeightAfter;
  }

  /** After ordinary operation that writes no address already on the stack, a checkpoint brings the whole stack
      back exactly when no operation wrote at a height under its top, all heights taken modulo the depth. */
  lemma RecoveryByHeights(s0: Ring, inputs: seq<Inputs>)
    requires Valid(s0) && forall k :: 0 <= k < |inputs| ==> Usable(s0.depth, inputs[k]) && Ordinary(s0, inputs[k])
    ensures var s, k := After(s0, inputs), TakeCheckpoint(s0);
            && CheckpointOk(s, k) && Valid(Recovered(s, k))
            && (Stack(Recovered(s, k)) == Stack(s0) <==>
                forall n :: 0 < n <= |inputs| ==> !Strikes(Bottom(s0), s0.count, s0.depth, inputs[..n]))
  {
    RecoveryByWrites(s0, inputs);
    forall j | 0 <= j < s0.count - 1
      ensures var w := LastWrite(Bottom(s0), s0.count, s0.depth, inputs, j);
              && (w.Some? ==> w != Some(Stack(s0)[j]))
              && (w.Some? <==> exists n :: 0 < n <= |inputs| && Strikes(Bottom(s0), s0.count, s0.depth, inputs[..n])
                                           && Struck(Bottom(s0), s0.count, s0.depth, inputs[..n]) == j)
    {
      StruckSomewhere(s0, inputs, j);
      assert Stack(s0)[j] in Stack(s0);
    }
    hide Recovered, Bottom, LastWrite, After, HeightAfter;
    if n :| 0 < n <= |inputs| && Strikes(Bottom(s0), s0.count, s0.depth, inputs[..n]) {
      var j := Struck(Bottom(s0), s0.count, s0.depth, inputs[..n]);
      assert LastWrite(Bottom(s0), s0.count, s0.depth, inputs, j).Some?;
    }
  }
}
